/**
 The sampling BPF objects (page faults, CPU time, scheduler events, memory events) as one machine over
 a trace of probe hits, cache evictions and configuration writes. A program run is one step: per-CPU
 slots and per-CPU counters are not shared between CPUs.

 The reference side reads a trace backwards: which configuration was in force, which cgroup a pid was
 last seen in, how many events had reached a CPU's sampling counter.
 */
module BpfAccounting {
  import opened Common
  import opened BpfCommon

  type Pid = nat
  datatype Kind = Pf | Cpu | Sched | Mem

  const PF_USER := 1
  const PF_KERNEL := 2
  const CPU_RUNTIME := 1
  const CPU_WAIT := 2
  const CPU_IOWAIT := 3
  const EVT_SWITCH_IN := 1
  const EVT_WAKEUP := 2
  const MEM_EVT_DIRECT := 1
  const MEM_PAGES_RECLAIM := 1
  const MEM_BYTES_ALLOC := 1
  const MEM_BYTES_FREE := 2
  const PAGE_SIZE := 4096

  /** The memory object has four tables: events, pages, bytes and the kswapd counter. The others have one. */
  const TABLES := 4
  const MAIN := 0
  const MEM_PAGES := 1
  const MEM_BYTES := 2
  const KSWAPD := 3

  type Key = (Cgid, nat)
  type Table = map<Key, seq<nat>>

  datatype Probe =
    | PageFaultUser
    | PageFaultKernel
    | CpuSwitch(prev: Pid)
    | CpuExit(pid: Pid)
    | StatRuntime(pid: Pid, ns: nat)
    | StatWait(pid: Pid, ns: nat)
    | StatIowait(pid: Pid, ns: nat)
    | SchedSwitch(prev: Pid, next: Pid)
    | SchedWakeup(pid: Pid)
    | SchedExit(pid: Pid)
    | KswapdWake
    | DirectReclaim
    | ReclaimPages(pages: nat)
    | PageAlloc(order: nat)
    | PageFree(order: nat)

  function KindOf(p: Probe): Kind {
    match p
    case PageFaultUser => Pf
    case PageFaultKernel => Pf
    case CpuSwitch(_) => Cpu
    case CpuExit(_) => Cpu
    case StatRuntime(_, _) => Cpu
    case StatWait(_, _) => Cpu
    case StatIowait(_, _) => Cpu
    case SchedSwitch(_, _) => Sched
    case SchedWakeup(_) => Sched
    case SchedExit(_) => Sched
    case _ => Mem
  }

  datatype Event = Fire(cpu: nat, task: Task, probe: Probe) | Evict(pid: Pid) | SetCfg(cfg: Cfg)

  datatype Setup = Setup(kind: Kind, ncpu: nat, capacity: nat, cfg0: Cfg)

  /** Whom a probe charges: the running task's cgroup, the cgroup a pid is cached under, or nobody's. */
  datatype Who = Self(cgid: Cgid) | ViaPid(pid: Pid) | System
  datatype Charge = Charge(who: Who, table: nat, kind: nat, delta: nat)
  datatype Effect = Effect(remember: Option<(Pid, Cgid)>, forget: Option<Pid>, charge: Option<Charge>)

  const NOTHING := Effect(None, None, None)

  function Charging(who: Who, table: nat, kind: nat, delta: nat): Effect {
    Effect(None, None, Some(Charge(who, table, kind, delta)))
  }

  /** The CPU object remembers only real pids in real cgroups. */
  function RememberCpu(pid: Pid, cgid: Cgid): Option<(Pid, Cgid)> {
    if pid == 0 || cgid == 0 then None else Some((pid, cgid))
  }

  function OrderToBytes(order: nat): nat {
    Pow2(if order >= 32 then 31 else order) * PAGE_SIZE
  }

  /** What a probe asks for under a configuration, before sampling. */
  function EffectOf(kind: Kind, cfg: Cfg, task: Task, probe: Probe): Effect {
    if KindOf(probe) != kind then NOTHING
    else
      var inside := InTarget(cfg, task);
      match probe
      case PageFaultUser => if inside then Charging(Self(task.cgid), MAIN, PF_USER, 1) else NOTHING
      case PageFaultKernel => if inside then Charging(Self(task.cgid), MAIN, PF_KERNEL, 1) else NOTHING
      case CpuSwitch(prev) => if inside then Effect(RememberCpu(prev, task.cgid), None, None) else NOTHING
      case CpuExit(pid) => Effect(None, Some(pid), None)
      case StatRuntime(pid, ns) =>
        if inside then
          Effect(RememberCpu(pid, task.cgid), None, Some(Charge(Self(task.cgid), MAIN, CPU_RUNTIME, ns)))
        else Charging(ViaPid(pid), MAIN, CPU_RUNTIME, ns)
      case StatWait(pid, ns) => Charging(ViaPid(pid), MAIN, CPU_WAIT, ns)
      case StatIowait(pid, ns) => Charging(ViaPid(pid), MAIN, CPU_IOWAIT, ns)
      case SchedSwitch(prev, next) =>
        Effect(if inside then Some((prev, task.cgid)) else None, None, Some(Charge(ViaPid(next), MAIN, EVT_SWITCH_IN, 1)))
      case SchedWakeup(pid) => Charging(ViaPid(pid), MAIN, EVT_WAKEUP, 1)
      case SchedExit(pid) => Effect(None, Some(pid), None)
      case KswapdWake => Charging(System, KSWAPD, 0, 1)
      case DirectReclaim => if inside then Charging(Self(task.cgid), MAIN, MEM_EVT_DIRECT, 1) else NOTHING
      case ReclaimPages(n) => if inside then Charging(Self(task.cgid), MEM_PAGES, MEM_PAGES_RECLAIM, n) else NOTHING
      case PageAlloc(order) =>
        if inside then Charging(Self(task.cgid), MEM_BYTES, MEM_BYTES_ALLOC, OrderToBytes(order)) else NOTHING
      case PageFree(order) =>
        if inside then Charging(Self(task.cgid), MEM_BYTES, MEM_BYTES_FREE, OrderToBytes(order)) else NOTHING
  }

  /** The CPU and memory objects refuse to add for cgroup 0 or a zero amount. */
  predicate Refused(kind: Kind, who: Who, cgid: Cgid, delta: nat) {
    (kind == Cpu || kind == Mem) && !who.System? && (cgid == 0 || delta == 0)
  }

  /** At rate one the memory object does not even touch its counter. */
  predicate StandsStill(kind: Kind, rate: nat) {
    kind == Mem && rate <= 1
  }

  // ----- the machine

  datatype State = State(cfg: Cfg, pidCgid: map<Pid, Cgid>, perCpuCnt: seq<nat>, tables: seq<Table>)

  function Start(su: Setup): State {
    State(su.cfg0, map[], Zeros(su.ncpu), seq(TABLES, i => map[]))
  }

  ghost predicate Shaped(su: Setup, s: State) {
    && |s.perCpuCnt| == su.ncpu && |s.tables| == TABLES
    && forall i :: 0 <= i < TABLES ==> SlotsOk(s.tables[i], su.ncpu)
  }

  function Cache(m: map<Pid, Cgid>, eff: Effect): map<Pid, Cgid> {
    var kept := if eff.forget.Some? then m - {eff.forget.value} else m;
    if eff.remember.Some? then kept[eff.remember.value.0 := eff.remember.value.1] else kept
  }

  /** The cgroup a charge resolves to; 0 stands for the system-wide counter. */
  function Resolve(m: map<Pid, Cgid>, who: Who): Option<Cgid> {
    match who
    case Self(c) => Some(c)
    case ViaPid(p) => if p in m then Some(m[p]) else None
    case System => Some(0)
  }

  predicate Passes(rate: nat, count: nat)
    requires rate >= 1
  {
    rate <= 1 || count % rate == 0
  }

  /** A program run on one CPU that asks for an effect. */
  function Fired(su: Setup, s: State, cpu: nat, eff: Effect): (s': State)
    requires Shaped(su, s)
    ensures Shaped(su, s')
  {
    var s1 := s.(pidCgid := Cache(s.pidCgid, eff));
    if cpu >= su.ncpu || eff.charge.None? || Resolve(s1.pidCgid, eff.charge.value.who).None? then s1
    else
      var ch, cgid := eff.charge.value, Resolve(s1.pidCgid, eff.charge.value.who).value;
      var rate := Rate(s.cfg);
      var count := if StandsStill(su.kind, rate) then s.perCpuCnt[cpu] else s.perCpuCnt[cpu] + 1;
      var s2 := s1.(perCpuCnt := s.perCpuCnt[cpu := count]);
      if !Passes(rate, count) || Refused(su.kind, ch.who, cgid, ch.delta) || ch.table >= TABLES then s2
      else s2.(tables := s.tables[ch.table :=
          Added(s.tables[ch.table], su.capacity, su.ncpu, (cgid, ch.kind), cpu, ch.delta)])
  }

  function Step(su: Setup, s: State, e: Event): (s': State)
    requires Shaped(su, s)
    ensures Shaped(su, s')
  {
    match e
    case Evict(pid) => s.(pidCgid := s.pidCgid - {pid})
    case SetCfg(cfg) => s.(cfg := cfg)
    case Fire(cpu, task, probe) => Fired(su, s, cpu, EffectOf(su.kind, s.cfg, task, probe))
  }

  function Run(su: Setup, trace: seq<Event>): (s: State)
    ensures Shaped(su, s)
  {
    if trace == [] then Start(su) else Step(su, Run(su, trace[..|trace| - 1]), trace[|trace| - 1])
  }

  // ----- reading a trace backwards

  ghost function CfgAt(su: Setup, trace: seq<Event>): Cfg {
    if trace == [] then su.cfg0
    else if trace[|trace| - 1].SetCfg? then trace[|trace| - 1].cfg
    else CfgAt(su, trace[..|trace| - 1])
  }

  /** The effect of the last event of a trace. */
  ghost function LastEffect(su: Setup, trace: seq<Event>): Effect
    requires trace != []
  {
    match trace[|trace| - 1]
    case Fire(_, task, probe) => EffectOf(su.kind, CfgAt(su, trace[..|trace| - 1]), task, probe)
    case _ => NOTHING
  }

  /** The cgroup under which a pid was last seen, unless it exited or was evicted since. */
  ghost function Remembered(su: Setup, trace: seq<Event>, pid: Pid): Option<Cgid> {
    if trace == [] then None
    else
      var eff := LastEffect(su, trace);
      if eff.remember.Some? && eff.remember.value.0 == pid then Some(eff.remember.value.1)
      else if eff.forget == Some(pid) || trace[|trace| - 1] == Evict(pid) then None
      else Remembered(su, trace[..|trace| - 1], pid)
  }

  /** The cgroup the last event is attributed to, if it is an event that reaches the sampler. */
  ghost function AttributedTo(su: Setup, trace: seq<Event>): Option<Cgid>
    requires trace != []
  {
    var e, eff := trace[|trace| - 1], LastEffect(su, trace);
    if !e.Fire? || e.cpu >= su.ncpu || eff.charge.None? then None
    else match eff.charge.value.who
      case Self(c) => Some(c)
      case ViaPid(p) => Remembered(su, trace, p)
      case System => Some(0)
  }

  /** The last event reaches the sampler of this CPU. */
  ghost predicate Arrives(su: Setup, trace: seq<Event>, cpu: nat) {
    trace != [] && AttributedTo(su, trace).Some? && trace[|trace| - 1].cpu == cpu
  }

  /** How many events so far moved this CPU's counter. */
  ghost function Counted(su: Setup, trace: seq<Event>, cpu: nat): nat {
    if trace == [] then 0
    else
      Counted(su, trace[..|trace| - 1], cpu)
      + if Arrives(su, trace, cpu) && !StandsStill(su.kind, Rate(CfgAt(su, trace))) then 1 else 0
  }

  /** The last event gets through the sampler. */
  ghost predicate Accepted(su: Setup, trace: seq<Event>, cpu: nat) {
    Arrives(su, trace, cpu) && Passes(Rate(CfgAt(su, trace)), Counted(su, trace, cpu))
  }

  /** What an accepted charge to this cgroup adds to one entry of one table. */
  function Amount(kind: Kind, ch: Charge, cgid: Cgid, table: nat, key: Key): nat {
    if ch.table == table && (cgid, ch.kind) == key && !Refused(kind, ch.who, cgid, ch.delta) then ch.delta else 0
  }

  /** What the last event adds to one entry of one table. */
  ghost function Contribution(su: Setup, trace: seq<Event>, table: nat, key: Key): nat
    requires trace != []
  {
    var e := trace[|trace| - 1];
    if !e.Fire? || !Accepted(su, trace, e.cpu) then 0
    else Amount(su.kind, LastEffect(su, trace).charge.value, AttributedTo(su, trace).value, table, key)
  }

  /** The fold of all accepted events attributed to one entry. */
  ghost function Expected(su: Setup, trace: seq<Event>, table: nat, key: Key): nat {
    if trace == [] then 0
    else Expected(su, trace[..|trace| - 1], table, key) + Contribution(su, trace, table, key)
  }

  // ----- the machine agrees with the trace

  ghost predicate CacheAgrees(su: Setup, trace: seq<Event>) {
    var s := Run(su, trace);
    forall pid: Pid :: (if pid in s.pidCgid then Some(s.pidCgid[pid]) else None) == Remembered(su, trace, pid)
  }

  lemma {:induction false} RunCfg(su: Setup, trace: seq<Event>)
    ensures Run(su, trace).cfg == CfgAt(su, trace)
  {
    if trace != [] {
      RunCfg(su, trace[..|trace| - 1]);
    }
  }

  lemma {:induction false} RunCache(su: Setup, trace: seq<Event>)
    ensures CacheAgrees(su, trace)
  {
    if trace != [] {
      var init := trace[..|trace| - 1];
      RunCache(su, init);
      RunCfg(su, init);
      forall pid: Pid
        ensures (if pid in Run(su, trace).pidCgid then Some(Run(su, trace).pidCgid[pid]) else None)
             == Remembered(su, trace, pid)
      {
        assert (if pid in Run(su, init).pidCgid then Some(Run(su, init).pidCgid[pid]) else None)
            == Remembered(su, init, pid);
      }
    }
  }

  /** The machine resolves the last event as the trace attributes it. */
  lemma ResolveAgrees(su: Setup, trace: seq<Event>)
    requires trace != [] && trace[|trace| - 1].Fire? && trace[|trace| - 1].cpu < su.ncpu
    requires LastEffect(su, trace).charge.Some?
    ensures
      var s := Run(su, trace[..|trace| - 1]);
      var eff := LastEffect(su, trace);
      && eff == EffectOf(su.kind, s.cfg, trace[|trace| - 1].task, trace[|trace| - 1].probe)
      && Resolve(Cache(s.pidCgid, eff), eff.charge.value.who) == AttributedTo(su, trace)
  {
    RunCfg(su, trace[..|trace| - 1]);
    RunCache(su, trace);
    var who := LastEffect(su, trace).charge.value.who;
    if who.ViaPid? {
      var s := Run(su, trace);
      assert (if who.pid in s.pidCgid then Some(s.pidCgid[who.pid]) else None) == Remembered(su, trace, who.pid);
    }
  }

  lemma {:induction false} RunCounters(su: Setup, trace: seq<Event>, cpu: nat)
    requires cpu < su.ncpu
    ensures Run(su, trace).perCpuCnt[cpu] == Counted(su, trace, cpu)
  {
    if trace != [] {
      var init, e := trace[..|trace| - 1], trace[|trace| - 1];
      RunCounters(su, init, cpu);
      RunCfg(su, init);
      if e.Fire? && e.cpu < su.ncpu && LastEffect(su, trace).charge.Some? {
        ResolveAgrees(su, trace);
      }
    }
  }

  lemma FiredAccounts(su: Setup, s: State, cpu: nat, eff: Effect, table: nat, key: Key, total: nat)
    requires Shaped(su, s) && table < TABLES && Accounts(s.tables[table], su.capacity, key, total)
    ensures
      var s' := Fired(su, s, cpu, eff);
      var added :=
        if cpu >= su.ncpu || eff.charge.None? || Resolve(s'.pidCgid, eff.charge.value.who).None?
           || !Passes(Rate(s.cfg), s'.perCpuCnt[cpu]) then 0
        else Amount(su.kind, eff.charge.value, Resolve(s'.pidCgid, eff.charge.value.who).value, table, key);
      Accounts(s'.tables[table], su.capacity, key, total + added)
  {
    var s' := Fired(su, s, cpu, eff);
    if cpu < su.ncpu && eff.charge.Some? && eff.charge.value.table == table
       && Resolve(s'.pidCgid, eff.charge.value.who).Some? {
      var ch := eff.charge.value;
      var k := (Resolve(s'.pidCgid, ch.who).value, ch.kind);
      AddedAccounts(s.tables[table], su.capacity, su.ncpu, k, cpu, ch.delta, key, total);
    }
  }

  /** Each stored total is the fold of exactly the accepted events attributed to its key; a key without
      an entry has none, unless its table is full. */
  lemma {:induction false} TotalsAreExact(su: Setup, trace: seq<Event>, table: nat, key: Key)
    requires table < TABLES
    ensures Accounts(Run(su, trace).tables[table], su.capacity, key, Expected(su, trace, table, key))
  {
    if trace != [] {
      var init, e := trace[..|trace| - 1], trace[|trace| - 1];
      TotalsAreExact(su, init, table, key);
      if e.Fire? {
        FireIsExact(su, trace, table, key);
      }
    }
  }

  lemma FireIsExact(su: Setup, trace: seq<Event>, table: nat, key: Key)
    requires table < TABLES && trace != [] && trace[|trace| - 1].Fire?
    requires
      var init := trace[..|trace| - 1];
      Accounts(Run(su, init).tables[table], su.capacity, key, Expected(su, init, table, key))
    ensures Accounts(Run(su, trace).tables[table], su.capacity, key, Expected(su, trace, table, key))
  {
    var init, e, eff := trace[..|trace| - 1], trace[|trace| - 1], LastEffect(su, trace);
    var s := Run(su, init);
    RunCfg(su, init);
    assert Run(su, trace) == Fired(su, s, e.cpu, eff);
    FiredAccounts(su, s, e.cpu, eff, table, key, Expected(su, init, table, key));
    if e.cpu < su.ncpu && eff.charge.Some? {
      ResolveAgrees(su, trace);
      RunCounters(su, trace, e.cpu);
    }
  }

  // ----- attribution history

  /** Event i ran in this cgroup and passed the target filter under the configuration then in force. */
  ghost predicate PassedFilter(su: Setup, trace: seq<Event>, i: nat, cgid: Cgid) {
    && i < |trace| && trace[i].Fire?
    && trace[i].task.cgid == cgid
    && InTarget(CfgAt(su, trace[..i]), trace[i].task)
  }

  lemma PassedExtends(su: Setup, trace: seq<Event>, i: nat, cgid: Cgid)
    requires trace != [] && PassedFilter(su, trace[..|trace| - 1], i, cgid)
    ensures PassedFilter(su, trace, i, cgid)
  {
    assert trace[..|trace| - 1][..i] == trace[..i];
  }

  /** A cached cgroup passed the filter at some earlier event, or at this one. */
  lemma {:induction false} RememberedPassed(su: Setup, trace: seq<Event>, pid: Pid) returns (i: nat)
    requires Remembered(su, trace, pid).Some?
    ensures PassedFilter(su, trace, i, Remembered(su, trace, pid).value)
  {
    var n := |trace| - 1;
    var eff := LastEffect(su, trace);
    if eff.remember.Some? && eff.remember.value.0 == pid {
      i := n;
    } else {
      i := RememberedPassed(su, trace[..n], pid);
      PassedExtends(su, trace, i, Remembered(su, trace, pid).value);
    }
  }

  lemma AttributedPassed(su: Setup, trace: seq<Event>) returns (i: nat)
    requires trace != [] && AttributedTo(su, trace).Some? && !LastEffect(su, trace).charge.value.who.System?
    ensures PassedFilter(su, trace, i, AttributedTo(su, trace).value)
  {
    var who := LastEffect(su, trace).charge.value.who;
    if who.ViaPid? {
      i := RememberedPassed(su, trace, who.pid);
    } else {
      i := |trace| - 1;
    }
  }

  /** Any cgroup that was charged had passed the target filter, earlier or in the charging event itself,
      under the configuration in force at that moment; whatever was evicted, exited or reconfigured since. */
  lemma {:induction false} ChargedOnlyAfterPassing(su: Setup, trace: seq<Event>, table: nat, key: Key)
    returns (i: nat)
    requires table < KSWAPD && Expected(su, trace, table, key) > 0
    ensures PassedFilter(su, trace, i, key.0)
  {
    var n := |trace| - 1;
    if Contribution(su, trace, table, key) > 0 {
      i := AttributedPassed(su, trace);
    } else {
      i := ChargedOnlyAfterPassing(su, trace[..n], table, key);
      PassedExtends(su, trace, i, key.0);
    }
  }

  // ----- sampling

  /** How many events reached the sampler of this CPU. */
  ghost function Arrivals(su: Setup, trace: seq<Event>, cpu: nat): nat {
    if trace == [] then 0
    else Arrivals(su, trace[..|trace| - 1], cpu) + if Arrives(su, trace, cpu) then 1 else 0
  }

  ghost function Acceptances(su: Setup, trace: seq<Event>, cpu: nat): nat {
    if trace == [] then 0
    else Acceptances(su, trace[..|trace| - 1], cpu) + if Accepted(su, trace, cpu) then 1 else 0
  }

  lemma DivStep(x: nat, r: nat)
    requires r >= 1
    ensures (x + 1) / r == x / r + if (x + 1) % r == 0 then 1 else 0
  {
    var q, t := x / r, x % r;
    assert x == r * q + t;
    if t + 1 < r {
      QuotientUnique(x + 1, r, q, t + 1);
    } else {
      assert r * (q + 1) == r * q + r;
      QuotientUnique(x + 1, r, q + 1, 0);
    }
  }

  /** The rate written in a configuration is r; zero is written for one. */
  predicate HasRate(cfg: Cfg, r: nat) {
    cfg.sampleRate == r || (cfg.sampleRate == 0 && r == 1)
  }

  /** The written sampling rate stays r through the segment. */
  ghost predicate FixedRate(su: Setup, pre: seq<Event>, seg: seq<Event>, r: nat) {
    && HasRate(CfgAt(su, pre), r)
    && forall i :: 0 <= i < |seg| && seg[i].SetCfg? ==> HasRate(seg[i].cfg, r)
  }

  lemma {:induction false} FixedRateAt(su: Setup, pre: seq<Event>, seg: seq<Event>, r: nat)
    requires r >= 1 && FixedRate(su, pre, seg, r)
    ensures Rate(CfgAt(su, pre + seg)) == r
  {
    if seg == [] {
      assert pre + seg == pre;
    } else {
      var m := |seg| - 1;
      assert (pre + seg)[..|pre| + m] == pre + seg[..m];
      FixedRateAt(su, pre, seg[..m], r);
    }
  }

  /** What one event does to a CPU's three counts at rate r. */
  lemma CountsStep(su: Setup, trace: seq<Event>, r: nat, cpu: nat)
    requires trace != [] && r >= 1 && Rate(CfgAt(su, trace)) == r
    ensures
      var init := trace[..|trace| - 1];
      var one := if Arrives(su, trace, cpu) then 1 else 0;
      var count := Counted(su, init, cpu) + one;
      && Arrivals(su, trace, cpu) == Arrivals(su, init, cpu) + one
      && (r > 1 ==> Counted(su, trace, cpu) == count)
      && Acceptances(su, trace, cpu) == Acceptances(su, init, cpu) + if one == 1 && (r == 1 || count % r == 0) then 1 else 0
  {
  }

  /** In a segment run at a fixed rate r, a CPU whose counter starts at pc accepts
      floor((pc + m) / r) - floor(pc / r) of the m events that reach it. */
  lemma {:induction false} SegmentAccepts(su: Setup, pre: seq<Event>, seg: seq<Event>, r: nat, cpu: nat)
    requires r >= 1 && FixedRate(su, pre, seg, r)
    ensures
      var pc := Counted(su, pre, cpu);
      var m := Arrivals(su, pre + seg, cpu) - Arrivals(su, pre, cpu);
      && m >= 0
      && (r > 1 ==> Counted(su, pre + seg, cpu) == pc + m)
      && Acceptances(su, pre + seg, cpu) - Acceptances(su, pre, cpu) == (pc + m) / r - pc / r
  {
    if seg == [] {
      assert pre + seg == pre;
    } else {
      var n := |seg| - 1;
      var all := pre + seg;
      assert all[..|all| - 1] == pre + seg[..n];
      SegmentAccepts(su, pre, seg[..n], r, cpu);
      FixedRateAt(su, pre, seg, r);
      CountsStep(su, all, r, cpu);
      DivStep(Counted(su, pre, cpu) + Arrivals(su, pre + seg[..n], cpu) - Arrivals(su, pre, cpu), r);
    }
  }

  ghost function PerCpu(su: Setup, trace: seq<Event>): seq<nat> {
    seq(su.ncpu, cpu requires 0 <= cpu < su.ncpu => Arrivals(su, trace, cpu))
  }

  ghost function AcceptedPerCpu(su: Setup, trace: seq<Event>): seq<nat> {
    seq(su.ncpu, cpu requires 0 <= cpu < su.ncpu => Acceptances(su, trace, cpu))
  }

  /** Pointwise bounds add up. */
  lemma {:induction false} SumBounds(a: seq<nat>, b: seq<nat>, r: nat)
    requires r >= 1 && |a| == |b|
    requires forall i :: 0 <= i < |a| ==> a[i] * r <= b[i] <= a[i] * r + (r - 1)
    ensures Sum(a) * r <= Sum(b) <= Sum(a) * r + |a| * (r - 1)
  {
    if a != [] {
      var n := |a| - 1;
      var a', b' := a[..n], b[..n];
      forall i | 0 <= i < n
        ensures a'[i] * r <= b'[i] <= a'[i] * r + (r - 1)
      {
        assert a'[i] == a[i] && b'[i] == b[i];
      }
      SumBounds(a', b', r);
      Distribute(Sum(a'), a[n], r);
      Distribute(n, 1, r - 1);
    }
  }

  lemma Distribute(x: int, y: int, r: int)
    ensures (x + y) * r == x * r + y * r
  {
  }

  lemma QuotientBounds(n: nat, r: nat, a: nat)
    requires r >= 1 && a == n / r
    ensures a * r <= n <= a * r + (r - 1)
  {
    assert n == r * (n / r) + n % r;
  }

  /** At a fixed rate, each CPU accepts the quotient of its arrivals. */
  lemma PerCpuBounds(su: Setup, trace: seq<Event>, r: nat, cpu: nat)
    requires r >= 1 && FixedRate(su, [], trace, r)
    ensures Acceptances(su, trace, cpu) * r <= Arrivals(su, trace, cpu)
    ensures Arrivals(su, trace, cpu) <= Acceptances(su, trace, cpu) * r + (r - 1)
  {
    assert [] + trace == trace;
    SegmentAccepts(su, [], trace, r, cpu);
    QuotientUnique(0, r, 0, 0);
    QuotientBounds(Arrivals(su, trace, cpu), r, Acceptances(su, trace, cpu));
  }

  /** How many events of the trace reached a sampler, and how many got through, on any CPU. */
  ghost function Reached(su: Setup, trace: seq<Event>): nat {
    if trace == [] then 0
    else Reached(su, trace[..|trace| - 1]) + if AttributedTo(su, trace).Some? then 1 else 0
  }

  ghost function AcceptedTotal(su: Setup, trace: seq<Event>): nat {
    if trace == [] then 0
    else
      var e := trace[|trace| - 1];
      AcceptedTotal(su, trace[..|trace| - 1]) + if e.Fire? && Accepted(su, trace, e.cpu) then 1 else 0
  }

  /** Every event that reaches a sampler reaches that of exactly one CPU. */
  lemma {:induction false} ReachedIsSum(su: Setup, trace: seq<Event>)
    ensures Reached(su, trace) == Sum(PerCpu(su, trace))
  {
    if trace == [] {
      SumZeros(su.ncpu);
      assert PerCpu(su, []) == seq(su.ncpu, i => 0);
    } else {
      var init := trace[..|trace| - 1];
      ReachedIsSum(su, init);
      var a := PerCpu(su, init);
      if AttributedTo(su, trace).Some? {
        var cpu := trace[|trace| - 1].cpu;
        assert PerCpu(su, trace) == a[cpu := a[cpu] + 1];
        SumUpdate(a, cpu, a[cpu] + 1);
      } else {
        assert PerCpu(su, trace) == a;
      }
    }
  }

  lemma {:induction false} AcceptedIsSum(su: Setup, trace: seq<Event>)
    ensures AcceptedTotal(su, trace) == Sum(AcceptedPerCpu(su, trace))
  {
    if trace == [] {
      SumZeros(su.ncpu);
      assert AcceptedPerCpu(su, []) == seq(su.ncpu, i => 0);
    } else {
      var init, e := trace[..|trace| - 1], trace[|trace| - 1];
      AcceptedIsSum(su, init);
      var a := AcceptedPerCpu(su, init);
      if e.Fire? && Accepted(su, trace, e.cpu) {
        assert AcceptedPerCpu(su, trace) == a[e.cpu := a[e.cpu] + 1];
        SumUpdate(a, e.cpu, a[e.cpu] + 1);
      } else {
        assert AcceptedPerCpu(su, trace) == a;
      }
    }
  }

  /** At a fixed rate r, the accepted events scaled by r never exceed the events that reached the
      sampler and fall short by at most r - 1 per CPU. */
  lemma SamplingErrorBound(su: Setup, trace: seq<Event>, r: nat)
    requires r >= 1 && FixedRate(su, [], trace, r)
    ensures AcceptedTotal(su, trace) * r <= Reached(su, trace)
    ensures Reached(su, trace) <= AcceptedTotal(su, trace) * r + su.ncpu * (r - 1)
  {
    var a, b := AcceptedPerCpu(su, trace), PerCpu(su, trace);
    forall cpu | 0 <= cpu < su.ncpu
      ensures a[cpu] * r <= b[cpu] <= a[cpu] * r + (r - 1)
    {
      PerCpuBounds(su, trace, r, cpu);
    }
    SumBounds(a, b, r);
    ReachedIsSum(su, trace);
    AcceptedIsSum(su, trace);
  }

  /** While zero or one is written, every event that reaches the sampler is accepted. */
  lemma RateOneAcceptsAll(su: Setup, trace: seq<Event>)
    requires su.cfg0.sampleRate <= 1
    requires forall i :: 0 <= i < |trace| && trace[i].SetCfg? ==> trace[i].cfg.sampleRate <= 1
    ensures AcceptedTotal(su, trace) == Reached(su, trace)
  {
    SamplingErrorBound(su, trace, 1);
  }

  /** While a rate n of at least one is written, the accepted events scaled by n never exceed the events that
      reached the sampler and fall short by at most n - 1 per CPU. */
  lemma WrittenRateBound(su: Setup, trace: seq<Event>, n: nat)
    requires n >= 1 && su.cfg0.sampleRate == n
    requires forall i :: 0 <= i < |trace| && trace[i].SetCfg? ==> trace[i].cfg.sampleRate == n
    ensures AcceptedTotal(su, trace) * n <= Reached(su, trace) <= AcceptedTotal(su, trace) * n + su.ncpu * (n - 1)
  {
    SamplingErrorBound(su, trace, n);
  }
}
