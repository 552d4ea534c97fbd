/**
 What the metrics programs should count, read off the probes of a trace alone: who is inside the target, where
 a pid was last seen, whom each probe charges, for what and how much, and which events the written rate keeps.
 Nothing here refers to the effects the machine of `BpfAccounting` computes; that the two agree is proved.
 */
module BpfReference {
  import opened Common
  import opened BpfCommon
  import opened BpfAccounting

  /** A probe shows that a pid runs in the cgroup of the running task. */
  predicate Shows(kind: Kind, probe: Probe, cgid: Cgid, pid: Pid) {
    match (kind, probe)
    case (Cpu, CpuSwitch(prev)) => prev == pid && pid != 0 && cgid != 0
    case (Cpu, StatRuntime(of, _)) => of == pid && pid != 0 && cgid != 0
    case (Sched, SchedSwitch(prev, _)) => prev == pid
    case _ => false
  }

  predicate Exits(kind: Kind, probe: Probe, pid: Pid) {
    match (kind, probe)
    case (Cpu, CpuExit(of)) => of == pid
    case (Sched, SchedExit(of)) => of == pid
    case _ => false
  }

  /** The cgroup in which a pid was last seen inside the target, unless it exited or was evicted since. */
  ghost function Home(su: Setup, trace: seq<Event>, pid: Pid): Option<Cgid> {
    if trace == [] then None
    else
      var init := trace[..|trace| - 1];
      match trace[|trace| - 1]
      case SetCfg(_) => Home(su, init, pid)
      case Evict(of) => if of == pid then None else Home(su, init, pid)
      case Fire(_, task, probe) =>
        if Inside(CfgAt(su, init), task) && Shows(su.kind, probe, task.cgid, pid) then Some(task.cgid)
        else if Exits(su.kind, probe, pid) then None
        else Home(su, init, pid)
  }

  /** Whom a probe charges: the running task's cgroup when it must be inside the target, the home of the task
      it is about when that one is not running, or nobody's cgroup. A switch knows the home of the task it
      switches out. */
  ghost function Payer(su: Setup, init: seq<Event>, task: Task, probe: Probe, after: seq<Event>): Option<Cgid> {
    var own := if Inside(CfgAt(su, init), task) then Some(task.cgid) else None;
    match (su.kind, probe)
    case (Pf, PageFaultUser) => own
    case (Pf, PageFaultKernel) => own
    case (Cpu, StatRuntime(pid, _)) => if own.Some? then own else Home(su, init, pid)
    case (Cpu, StatWait(pid, _)) => Home(su, init, pid)
    case (Cpu, StatIowait(pid, _)) => Home(su, init, pid)
    case (Sched, SchedSwitch(_, next)) => Home(su, after, next)
    case (Sched, SchedWakeup(pid)) => Home(su, init, pid)
    case (Mem, KswapdWake) => Some(0)
    case (Mem, DirectReclaim) => own
    case (Mem, ReclaimPages(_)) => own
    case (Mem, PageAlloc(_)) => own
    case (Mem, PageFree(_)) => own
    case _ => None
  }

  ghost function Charged(su: Setup, trace: seq<Event>): Option<Cgid>
    requires trace != []
  {
    match trace[|trace| - 1]
    case Fire(cpu, task, probe) =>
      if cpu < su.ncpu then Payer(su, trace[..|trace| - 1], task, probe, trace) else None
    case _ => None
  }

  /** The bytes of 2^order pages, from order 31 on those of 31. */
  function PageBytes(order: nat): nat {
    if order == 0 then 4096 else if order < 32 then 2 * PageBytes(order - 1) else PageBytes(31)
  }

  /** Table, type and amount of a probe's charge. */
  function Bill(probe: Probe): (nat, nat, nat) {
    match probe
    case PageFaultUser => (MAIN, 1, 1)
    case PageFaultKernel => (MAIN, 2, 1)
    case StatRuntime(_, ns) => (MAIN, 1, ns)
    case StatWait(_, ns) => (MAIN, 2, ns)
    case StatIowait(_, ns) => (MAIN, 3, ns)
    case SchedSwitch(_, _) => (MAIN, 1, 1)
    case SchedWakeup(_) => (MAIN, 2, 1)
    case KswapdWake => (KSWAPD, 0, 1)
    case DirectReclaim => (MAIN, 1, 1)
    case ReclaimPages(pages) => (MEM_PAGES, 1, pages)
    case PageAlloc(order) => (MEM_BYTES, 1, PageBytes(order))
    case PageFree(order) => (MEM_BYTES, 2, PageBytes(order))
    case _ => (MAIN, 0, 0)
  }

  /** The last event charges somebody on this CPU. */
  ghost predicate Comes(su: Setup, trace: seq<Event>, cpu: nat) {
    trace != [] && Charged(su, trace).Some? && trace[|trace| - 1].cpu == cpu
  }

  /** How often a CPU's sampling counter moved: at every charge, except that the memory object leaves it alone
      while the written rate is zero or one. */
  ghost function Moves(su: Setup, trace: seq<Event>, cpu: nat): nat {
    if trace == [] then 0
    else
      Moves(su, trace[..|trace| - 1], cpu)
      + if Comes(su, trace, cpu) && !(su.kind == Mem && CfgAt(su, trace).sampleRate <= 1) then 1 else 0
  }

  /** The last event is kept: the written rate is zero or one, or divides the count of its CPU. */
  ghost predicate Kept(su: Setup, trace: seq<Event>)
    requires trace != [] && Charged(su, trace).Some?
  {
    var n := CfgAt(su, trace).sampleRate;
    n <= 1 || Moves(su, trace, trace[|trace| - 1].cpu) % n == 0
  }

  /** What the last event is to add to one entry of one table. The CPU and memory objects add nothing for
      cgroup 0, except to the system-wide counter. */
  ghost function Due(su: Setup, trace: seq<Event>, table: nat, key: Key): nat
    requires trace != []
  {
    if Charged(su, trace).None? || !Kept(su, trace) then 0
    else
      var cgid, bill := Charged(su, trace).value, Bill(trace[|trace| - 1].probe);
      if bill.0 != table || (cgid, bill.1) != key || (su.kind in {Cpu, Mem} && table != KSWAPD && cgid == 0) then 0
      else bill.2
  }

  ghost function TotalDue(su: Setup, trace: seq<Event>, table: nat, key: Key): nat {
    if trace == [] then 0 else TotalDue(su, trace[..|trace| - 1], table, key) + Due(su, trace, table, key)
  }

  // ----- the machine agrees

  lemma EffectRemembers(kind: Kind, cfg: Cfg, task: Task, probe: Probe, pid: Pid)
    ensures
      var eff := EffectOf(kind, cfg, task, probe);
      && (eff.remember.Some? && eff.remember.value.0 == pid <==> Inside(cfg, task) && Shows(kind, probe, task.cgid, pid))
      && (eff.remember.Some? ==> eff.remember.value.1 == task.cgid)
      && (eff.forget == Some(pid) <==> Exits(kind, probe, pid))
  {
    InsideIsInTarget(cfg, task);
  }

  lemma {:induction false} HomeIsRemembered(su: Setup, trace: seq<Event>, pid: Pid)
    ensures Home(su, trace, pid) == Remembered(su, trace, pid)
  {
    if trace != [] {
      var init := trace[..|trace| - 1];
      HomeIsRemembered(su, init, pid);
      match trace[|trace| - 1]
      case Fire(_, task, probe) => EffectRemembers(su.kind, CfgAt(su, init), task, probe, pid);
      case _ =>
    }
  }

  /** The pid cache holds exactly the homes. */
  lemma CacheHoldsHomes(su: Setup, trace: seq<Event>, pid: Pid)
    ensures
      var cache := Run(su, trace).pidCgid;
      Home(su, trace, pid) == if pid in cache then Some(cache[pid]) else None
  {
    HomeIsRemembered(su, trace, pid);
    RunCache(su, trace);
  }

  /** Right after its exit, or after an eviction, a pid is not in the cache. */
  lemma ExitForgets(su: Setup, trace: seq<Event>, pid: Pid)
    requires trace != []
    requires
      var e := trace[|trace| - 1];
      || e == Evict(pid)
      || (e.Fire? && su.kind == Sched && e.probe == SchedExit(pid))
      || (e.Fire? && su.kind == Cpu && e.probe == CpuExit(pid))
    ensures pid !in Run(su, trace).pidCgid
  {
    CacheHoldsHomes(su, trace, pid);
  }

  lemma {:induction false} BytesAreDoubled(order: nat)
    ensures OrderToBytes(order) == PageBytes(order)
  {
    if 0 < order < 32 {
      BytesAreDoubled(order - 1);
    } else if order >= 32 {
      BytesAreDoubled(31);
    }
  }

  lemma BytesOfOrders()
    ensures OrderToBytes(0) == 4096 && OrderToBytes(1) == 8192 && OrderToBytes(9) == 2097152
    ensures OrderToBytes(31) == OrderToBytes(64) == 8796093022208
  {
    Pow2At8();
    Pow2Plus8(8);
    Pow2Plus8(16);
    Pow2Add(24, 7);
    assert Pow2(7) == 128;
  }

  lemma EffectBills(kind: Kind, cfg: Cfg, task: Task, probe: Probe)
    ensures
      var ch := EffectOf(kind, cfg, task, probe).charge;
      ch.Some? ==> (ch.value.table, ch.value.kind, ch.value.delta) == Bill(probe)
                   && (ch.value.who.System? <==> ch.value.table == KSWAPD)
  {
    match probe
    case PageAlloc(order) => BytesAreDoubled(order);
    case PageFree(order) => BytesAreDoubled(order);
    case _ =>
  }

  /** Whom the effect of a probe charges, given where the pids are at home. */
  lemma EffectPays(su: Setup, init: seq<Event>, task: Task, probe: Probe, after: seq<Event>)
    requires after != [] && after[..|after| - 1] == init && after[|after| - 1].Fire?
    requires after[|after| - 1].task == task && after[|after| - 1].probe == probe
    ensures
      var ch := EffectOf(su.kind, CfgAt(su, init), task, probe).charge;
      Payer(su, init, task, probe, after)
      == if ch.None? then None
         else if ch.value.who.ViaPid? then Home(su, after, ch.value.who.pid)
         else if ch.value.who.Self? then Some(ch.value.who.cgid)
         else Some(0)
  {
    InsideIsInTarget(CfgAt(su, init), task);
  }

  lemma ChargedIsAttributed(su: Setup, trace: seq<Event>)
    requires trace != []
    ensures Charged(su, trace) == AttributedTo(su, trace)
  {
    match trace[|trace| - 1]
    case Fire(cpu, task, probe) =>
      EffectPays(su, trace[..|trace| - 1], task, probe, trace);
      var ch := LastEffect(su, trace).charge;
      if ch.Some? && ch.value.who.ViaPid? {
        HomeIsRemembered(su, trace, ch.value.who.pid);
      }
    case _ =>
  }

  lemma {:induction false} MovesAreCounted(su: Setup, trace: seq<Event>, cpu: nat)
    ensures Moves(su, trace, cpu) == Counted(su, trace, cpu)
  {
    if trace != [] {
      MovesAreCounted(su, trace[..|trace| - 1], cpu);
      ChargedIsAttributed(su, trace);
    }
  }

  lemma KeptIsAccepted(su: Setup, trace: seq<Event>)
    requires trace != [] && Charged(su, trace).Some?
    ensures Kept(su, trace) <==> Accepted(su, trace, trace[|trace| - 1].cpu)
  {
    ChargedIsAttributed(su, trace);
    MovesAreCounted(su, trace, trace[|trace| - 1].cpu);
  }

  lemma DueIsContributed(su: Setup, trace: seq<Event>, table: nat, key: Key)
    requires trace != []
    ensures Due(su, trace, table, key) == Contribution(su, trace, table, key)
  {
    ChargedIsAttributed(su, trace);
    if Charged(su, trace).Some? {
      KeptIsAccepted(su, trace);
      var e := trace[|trace| - 1];
      EffectBills(su.kind, CfgAt(su, trace[..|trace| - 1]), e.task, e.probe);
    }
  }

  /** Over every run with cache eviction, exits and reconfiguration, each stored total, summed over CPUs, is
      what the probes say is due to its key; a key without an entry is due nothing, unless its table is full. */
  lemma {:induction false} TotalsAreDue(su: Setup, trace: seq<Event>, table: nat, key: Key)
    requires table < TABLES
    ensures TotalDue(su, trace, table, key) == Expected(su, trace, table, key)
    ensures Accounts(Run(su, trace).tables[table], su.capacity, key, TotalDue(su, trace, table, key))
  {
    TotalsAreExact(su, trace, table, key);
    if trace != [] {
      TotalsAreDue(su, trace[..|trace| - 1], table, key);
      DueIsContributed(su, trace, table, key);
    }
  }
}
