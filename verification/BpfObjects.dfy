/**
 The tracepoint handlers of the sampling BPF objects as written: filter, pid cache, sampler and add,
 in the order of each handler. Every handler is one step of the accounting machine.
 */
module BpfObjects {
  import opened Common
  import opened BpfCommon
  import opened BpfAccounting
  import opened BpfReference

  /** The sampling counters and tables after one charge, by the rate written in the configuration: the counter
      moves, except in the memory object at rate zero or one; the charge is kept at rate zero or one, or when
      the rate divides the count; and the CPU and memory objects add nothing for cgroup 0 or a zero amount,
      except to the system-wide counter. */
  function Sampled(su: Setup, cfg: Cfg, cnt: seq<nat>, tables: seq<Table>, cpu: nat, table: nat, key: Key, delta: nat)
    : (seq<nat>, seq<Table>)
    requires cpu < su.ncpu == |cnt| && table < TABLES == |tables| && SlotsOk(tables[table], su.ncpu)
  {
    var count := if su.kind == Mem && cfg.sampleRate <= 1 then cnt[cpu] else cnt[cpu] + 1;
    var kept := cfg.sampleRate <= 1 || count % cfg.sampleRate == 0;
    var refused := (su.kind == Cpu || su.kind == Mem) && table != KSWAPD && (key.0 == 0 || delta == 0);
    (cnt[cpu := count],
     if kept && !refused then tables[table := Added(tables[table], su.capacity, su.ncpu, key, cpu, delta)] else tables)
  }

  class BpfObject {
    const su: Setup
    var cfg: Cfg
    var pidCgid: map<Pid, Cgid>
    var perCpuCnt: seq<nat>
    var tables: seq<Table>

    ghost function View(): State
      reads this
    {
      State(cfg, pidCgid, perCpuCnt, tables)
    }

    ghost predicate Valid()
      reads this
    {
      Shaped(su, View())
    }

    constructor (su: Setup)
      ensures this.su == su && View() == Start(su) && Valid()
    {
      this.su := su;
      cfg := su.cfg0;
      pidCgid := map[];
      perCpuCnt := Zeros(su.ncpu);
      tables := seq(TABLES, i => map[]);
    }

    method InTargetSubtreeCurrent(task: Task) returns (inside: bool)
      ensures inside == InTarget(cfg, task)
      ensures inside <==> Inside(cfg, task)
    {
      if !cfg.enableFilter {
        return true;
      }
      var anc := AncestorAt(task, cfg.targetLevel);
      return anc != 0 && anc == cfg.targetCgid;
    }

    /** The three ways the objects sample: the counter moves on every event, except that the memory
        object returns before touching it at rate one. */
    method PassSample(cpu: nat) returns (pass: bool)
      requires Valid() && cpu < su.ncpu
      modifies this`perCpuCnt
      ensures Valid()
      ensures
        var count := old(perCpuCnt[cpu]) + if StandsStill(su.kind, Rate(cfg)) then 0 else 1;
        perCpuCnt == old(perCpuCnt)[cpu := count] && pass == Passes(Rate(cfg), count)
      ensures
        var n, count := cfg.sampleRate, old(perCpuCnt[cpu]) + 1;
        if su.kind == Mem && n <= 1 then pass && perCpuCnt == old(perCpuCnt)
        else (pass <==> n <= 1 || count % n == 0) && perCpuCnt == old(perCpuCnt)[cpu := count]
    {
      var rate := Rate(cfg);
      if su.kind == Mem && rate <= 1 {
        return true;
      }
      perCpuCnt := perCpuCnt[cpu := perCpuCnt[cpu] + 1];
      if su.kind == Cpu && rate <= 1 {
        return true;
      }
      QuotientUnique(perCpuCnt[cpu], 1, perCpuCnt[cpu], 0);
      return perCpuCnt[cpu] % rate == 0;
    }

    method RememberPid(pid: Pid, cgid: Cgid)
      modifies this`pidCgid
      ensures pidCgid == if pid == 0 || cgid == 0 then old(pidCgid) else old(pidCgid)[pid := cgid]
    {
      if pid == 0 || cgid == 0 {
        return;
      }
      pidCgid := pidCgid[pid := cgid];
    }

    /** The add of the objects that refuse cgroup 0 and zero amounts, and of those that do not. */
    method AddTo(table: nat, who: Who, cgid: Cgid, kind: nat, cpu: nat, delta: nat)
      requires Valid() && cpu < su.ncpu && table < TABLES
      modifies this`tables
      ensures Valid()
      ensures
        var refused := (su.kind == Cpu || su.kind == Mem) && who != System && (cgid == 0 || delta == 0);
        tables == if refused then old(tables)
                  else old(tables)[table := Added(old(tables)[table], su.capacity, su.ncpu, (cgid, kind), cpu, delta)]
      ensures tables == if Refused(su.kind, who, cgid, delta) then old(tables)
                        else old(tables)[table := Added(old(tables)[table], su.capacity, su.ncpu, (cgid, kind), cpu, delta)]
    {
      if (su.kind == Cpu || su.kind == Mem) && !who.System? && (cgid == 0 || delta == 0) {
        return;
      }
      var m := AddU64(tables[table], su.capacity, su.ncpu, (cgid, kind), cpu, delta);
      tables := tables[table := m];
    }

    method SetConfig(c: Cfg)
      requires Valid()
      modifies this`cfg
      ensures Valid() && View() == Step(su, old(View()), SetCfg(c))
    {
      cfg := c;
    }

    /** The least-recently-used cache drops an entry on its own. */
    method EvictPid(pid: Pid)
      requires Valid()
      modifies this`pidCgid
      ensures Valid() && View() == Step(su, old(View()), Evict(pid))
    {
      pidCgid := pidCgid - {pid};
    }

    // ----- page faults

    method BumpPf(cpu: nat, task: Task, user: bool)
      requires Valid() && cpu < su.ncpu && su.kind == Pf
      modifies this
      ensures Valid()
      ensures View() == Step(su, old(View()), Fire(cpu, task, if user then PageFaultUser else PageFaultKernel))
      ensures cfg == old(cfg)
      ensures pidCgid == old(pidCgid)
      ensures (perCpuCnt, tables)
           == if Inside(cfg, task) then Sampled(su, cfg, old(perCpuCnt), old(tables), cpu, MAIN, (task.cgid, if user then 1 else 2), 1)
              else (old(perCpuCnt), old(tables))
    {
      var inside := InTargetSubtreeCurrent(task);
      if !inside {
        return;
      }
      var pass := PassSample(cpu);
      if !pass {
        return;
      }
      AddTo(MAIN, Self(task.cgid), task.cgid, if user then PF_USER else PF_KERNEL, cpu, 1);
    }

    // ----- CPU time

    method TpSchedSwitchCpu(cpu: nat, task: Task, prev: Pid)
      requires Valid() && cpu < su.ncpu && su.kind == Cpu
      modifies this
      ensures Valid() && View() == Step(su, old(View()), Fire(cpu, task, CpuSwitch(prev)))
      ensures cfg == old(cfg) && perCpuCnt == old(perCpuCnt) && tables == old(tables)
      ensures pidCgid == if Inside(cfg, task) && prev != 0 && task.cgid != 0 then old(pidCgid)[prev := task.cgid]
                         else old(pidCgid)
    {
      var inside := InTargetSubtreeCurrent(task);
      if !inside {
        return;
      }
      RememberPid(prev, task.cgid);
    }

    method TpSchedExitCpu(cpu: nat, task: Task, pid: Pid)
      requires Valid() && cpu < su.ncpu && su.kind == Cpu
      modifies this
      ensures Valid() && View() == Step(su, old(View()), Fire(cpu, task, CpuExit(pid)))
      ensures cfg == old(cfg) && perCpuCnt == old(perCpuCnt) && tables == old(tables)
      ensures pidCgid == old(pidCgid) - {pid}
    {
      pidCgid := pidCgid - {pid};
    }

    method TpSchedStatRuntime(cpu: nat, task: Task, pid: Pid, runtime: nat)
      requires Valid() && cpu < su.ncpu && su.kind == Cpu
      modifies this
      ensures Valid() && View() == Step(su, old(View()), Fire(cpu, task, StatRuntime(pid, runtime)))
      ensures cfg == old(cfg)
      ensures pidCgid == if Inside(cfg, task) && pid != 0 && task.cgid != 0 then old(pidCgid)[pid := task.cgid]
                         else old(pidCgid)
      ensures (perCpuCnt, tables)
           == if Inside(cfg, task) then Sampled(su, cfg, old(perCpuCnt), old(tables), cpu, MAIN, (task.cgid, 1), runtime)
              else if pid in old(pidCgid) then
                Sampled(su, cfg, old(perCpuCnt), old(tables), cpu, MAIN, (old(pidCgid)[pid], 1), runtime)
              else (old(perCpuCnt), old(tables))
    {
      var cgid := 0;
      var inside := InTargetSubtreeCurrent(task);
      if inside {
        cgid := task.cgid;
        RememberPid(pid, cgid);
      } else {
        if pid !in pidCgid {
          return;
        }
        cgid := pidCgid[pid];
      }
      var pass := PassSample(cpu);
      if !pass {
        return;
      }
      AddTo(MAIN, Self(cgid), cgid, CPU_RUNTIME, cpu, runtime);
    }

    /** Wait and I/O wait: the task is not running, so its cgroup comes from the cache alone. */
    method HandleDelayEvent(cpu: nat, task: Task, pid: Pid, delay: nat, iowait: bool)
      requires Valid() && cpu < su.ncpu && su.kind == Cpu
      modifies this
      ensures Valid()
      ensures View() == Step(su, old(View()), Fire(cpu, task, if iowait then StatIowait(pid, delay) else StatWait(pid, delay)))
      ensures cfg == old(cfg)
      ensures pidCgid == old(pidCgid)
      ensures (perCpuCnt, tables)
           == if pid in old(pidCgid) then Sampled(su, cfg, old(perCpuCnt), old(tables), cpu, MAIN, (old(pidCgid)[pid], if iowait then 3 else 2), delay)
              else (old(perCpuCnt), old(tables))
    {
      if pid !in pidCgid {
        return;
      }
      var cgid := pidCgid[pid];
      var pass := PassSample(cpu);
      if !pass {
        return;
      }
      AddTo(MAIN, ViaPid(pid), cgid, if iowait then CPU_IOWAIT else CPU_WAIT, cpu, delay);
    }

    // ----- scheduler events

    method BumpSched(cgid: Cgid, kind: nat, cpu: nat)
      requires Valid() && cpu < su.ncpu && su.kind == Sched
      modifies this`perCpuCnt, this`tables
      ensures Valid()
      ensures
        var count := old(perCpuCnt[cpu]) + 1;
        && perCpuCnt == old(perCpuCnt)[cpu := count]
        && tables == if !Passes(Rate(cfg), count) then old(tables)
                     else old(tables)[MAIN := Added(old(tables)[MAIN], su.capacity, su.ncpu, (cgid, kind), cpu, 1)]
    {
      var pass := PassSample(cpu);
      if !pass {
        return;
      }
      AddTo(MAIN, Self(cgid), cgid, kind, cpu, 1);
    }

    /** The switched-out task is remembered first; the switched-in one is counted from the cache. */
    method TpSchedSwitch(cpu: nat, task: Task, prev: Pid, next: Pid)
      requires Valid() && cpu < su.ncpu && su.kind == Sched
      modifies this
      ensures Valid() && View() == Step(su, old(View()), Fire(cpu, task, SchedSwitch(prev, next)))
      ensures cfg == old(cfg)
      ensures pidCgid == if Inside(cfg, task) then old(pidCgid)[prev := task.cgid] else old(pidCgid)
      ensures (perCpuCnt, tables)
           == if next in pidCgid then Sampled(su, cfg, old(perCpuCnt), old(tables), cpu, MAIN, (pidCgid[next], 1), 1)
              else (old(perCpuCnt), old(tables))
    {
      var inside := InTargetSubtreeCurrent(task);
      if inside {
        pidCgid := pidCgid[prev := task.cgid];
      }
      if next !in pidCgid {
        return;
      }
      BumpSched(pidCgid[next], EVT_SWITCH_IN, cpu);
    }

    method TpSchedWakeup(cpu: nat, task: Task, pid: Pid)
      requires Valid() && cpu < su.ncpu && su.kind == Sched
      modifies this
      ensures Valid() && View() == Step(su, old(View()), Fire(cpu, task, SchedWakeup(pid)))
      ensures cfg == old(cfg)
      ensures pidCgid == old(pidCgid)
      ensures (perCpuCnt, tables)
           == if pid in old(pidCgid) then Sampled(su, cfg, old(perCpuCnt), old(tables), cpu, MAIN, (old(pidCgid)[pid], 2), 1)
              else (old(perCpuCnt), old(tables))
    {
      if pid !in pidCgid {
        return;
      }
      BumpSched(pidCgid[pid], EVT_WAKEUP, cpu);
    }

    method TpSchedExit(cpu: nat, task: Task, pid: Pid)
      requires Valid() && cpu < su.ncpu && su.kind == Sched
      modifies this
      ensures Valid() && View() == Step(su, old(View()), Fire(cpu, task, SchedExit(pid)))
      ensures cfg == old(cfg) && perCpuCnt == old(perCpuCnt) && tables == old(tables)
      ensures pidCgid == old(pidCgid) - {pid}
    {
      pidCgid := pidCgid - {pid};
    }

    // ----- memory events

    method TpKswapdWake(cpu: nat, task: Task)
      requires Valid() && cpu < su.ncpu && su.kind == Mem
      modifies this
      ensures Valid() && View() == Step(su, old(View()), Fire(cpu, task, KswapdWake))
      ensures cfg == old(cfg) && pidCgid == old(pidCgid)
      ensures (perCpuCnt, tables) == Sampled(su, cfg, old(perCpuCnt), old(tables), cpu, KSWAPD, (0, 0), 1)
    {
      var pass := PassSample(cpu);
      if !pass {
        return;
      }
      AddTo(KSWAPD, System, 0, 0, cpu, 1);
    }

    method TpDirectReclaim(cpu: nat, task: Task)
      requires Valid() && cpu < su.ncpu && su.kind == Mem
      modifies this
      ensures Valid() && View() == Step(su, old(View()), Fire(cpu, task, DirectReclaim))
      ensures cfg == old(cfg)
      ensures pidCgid == old(pidCgid)
      ensures (perCpuCnt, tables)
           == if Inside(cfg, task) then Sampled(su, cfg, old(perCpuCnt), old(tables), cpu, MAIN, (task.cgid, 1), 1)
              else (old(perCpuCnt), old(tables))
    {
      var inside := InTargetSubtreeCurrent(task);
      if !inside {
        return;
      }
      var pass := PassSample(cpu);
      if !pass {
        return;
      }
      AddTo(MAIN, Self(task.cgid), task.cgid, MEM_EVT_DIRECT, cpu, 1);
    }

    method TpPageAllocFree(cpu: nat, task: Task, order: nat, alloc: bool)
      requires Valid() && cpu < su.ncpu && su.kind == Mem
      modifies this
      ensures Valid()
      ensures View() == Step(su, old(View()), Fire(cpu, task, if alloc then PageAlloc(order) else PageFree(order)))
      ensures cfg == old(cfg)
      ensures pidCgid == old(pidCgid)
      ensures (perCpuCnt, tables)
           == if Inside(cfg, task) then Sampled(su, cfg, old(perCpuCnt), old(tables), cpu, MEM_BYTES, (task.cgid, if alloc then 1 else 2), PageBytes(order))
              else (old(perCpuCnt), old(tables))
    {
      var inside := InTargetSubtreeCurrent(task);
      if !inside {
        return;
      }
      var pass := PassSample(cpu);
      if !pass {
        return;
      }
      var bytes := OrderToBytes(order);
      BytesAreDoubled(order);
      if bytes == 0 {
        return;
      }
      AddTo(MEM_BYTES, Self(task.cgid), task.cgid, if alloc then MEM_BYTES_ALLOC else MEM_BYTES_FREE, cpu, bytes);
    }

    method TpReclaimPages(cpu: nat, task: Task, reclaimed: nat)
      requires Valid() && cpu < su.ncpu && su.kind == Mem
      modifies this
      ensures Valid() && View() == Step(su, old(View()), Fire(cpu, task, ReclaimPages(reclaimed)))
      ensures cfg == old(cfg)
      ensures pidCgid == old(pidCgid)
      ensures (perCpuCnt, tables)
           == if Inside(cfg, task) then Sampled(su, cfg, old(perCpuCnt), old(tables), cpu, MEM_PAGES, (task.cgid, 1), reclaimed)
              else (old(perCpuCnt), old(tables))
    {
      var inside := InTargetSubtreeCurrent(task);
      if !inside {
        return;
      }
      var pass := PassSample(cpu);
      if !pass {
        return;
      }
      AddTo(MEM_PAGES, Self(task.cgid), task.cgid, MEM_PAGES_RECLAIM, cpu, reclaimed);
    }
  }
}
