/**
 The scheduler monitor: tracepoint handlers on many CPUs charge a shared, bounded hash map by
 lookup, insert-if-absent, re-lookup and atomic add. Counters are naturals: wrap-around of the
 64-bit fields is not modelled.
 */
module SchedMonitor {
  import opened Common

  type Cgid = nat

  datatype Counter = RuntimeNs | CtxSwitches | Wakeups | Migrations

  datatype CgStat = CgStat(runtimeNs: nat, maxRuntimeNs: nat, ctxSwitches: nat, wakeups: nat, migrations: nat)

  const ZERO := CgStat(0, 0, 0, 0, 0)

  function Get(v: CgStat, c: Counter): nat {
    match c
    case RuntimeNs => v.runtimeNs
    case CtxSwitches => v.ctxSwitches
    case Wakeups => v.wakeups
    case Migrations => v.migrations
  }

  /** One atomic fetch-and-add. */
  function FetchAdd(v: CgStat, c: Counter, delta: nat): CgStat {
    match c
    case RuntimeNs => v.(runtimeNs := v.runtimeNs + delta)
    case CtxSwitches => v.(ctxSwitches := v.ctxSwitches + delta)
    case Wakeups => v.(wakeups := v.wakeups + delta)
    case Migrations => v.(migrations := v.migrations + delta)
  }

  datatype Charge = Charge(cgid: Cgid, counter: Counter, delta: nat)

  datatype Tracepoint = SchedSwitch | SchedWakeup | StatRuntime(runtime: nat) | MigrateTask

  datatype Config = Config(capacity: nat, threshold: nat, filterEnabled: bool, allowed: set<Cgid>)

  predicate AllowCgroup(cfg: Config, cgid: Cgid) {
    !cfg.filterEnabled || cgid in cfg.allowed
  }

  /** What a tracepoint charges: switch, wakeup and migration only after the ring buffer gave a
      record, runtime before asking for one and only from the threshold on. */
  function ChargeOf(cfg: Config, tp: Tracepoint, cgid: Cgid, reserved: bool): Option<Charge> {
    if !AllowCgroup(cfg, cgid) then None
    else match tp
      case SchedSwitch => if reserved then Some(Charge(cgid, CtxSwitches, 1)) else None
      case SchedWakeup => if reserved then Some(Charge(cgid, Wakeups, 1)) else None
      case MigrateTask => if reserved then Some(Charge(cgid, Migrations, 1)) else None
      case StatRuntime(ns) =>
        if cfg.threshold != 0 && ns < cfg.threshold then None else Some(Charge(cgid, RuntimeNs, ns))
  }

  // ----- the interleaved machine

  /** Where a CPU is inside one charge. */
  datatype Pc = Idle | Lookup(ch: Charge) | Insert(ch: Charge) | Relookup(ch: Charge) | Add(ch: Charge)

  datatype State = State(stats: map<Cgid, CgStat>, pcs: seq<Pc>, charged: seq<Charge>)

  datatype Step = Fire(cpu: nat, tp: Tracepoint, cgid: Cgid, reserved: bool) | Run(cpu: nat)

  /** The insert-if-absent of a bounded map: refused when the key exists or the map is full. */
  function InsertNoExist(stats: map<Cgid, CgStat>, capacity: nat, cgid: Cgid): map<Cgid, CgStat> {
    if cgid in stats || |stats| >= capacity then stats else stats[cgid := ZERO]
  }

  function Apply(cfg: Config, s: State, step: Step): State {
    if step.cpu >= |s.pcs| then s
    else
      var cpu := step.cpu;
      match (step, s.pcs[cpu])
      case (Fire(_, tp, cgid, reserved), Idle) =>
        (match ChargeOf(cfg, tp, cgid, reserved)
         case None => s
         case Some(ch) => s.(pcs := s.pcs[cpu := Lookup(ch)], charged := s.charged + [ch]))
      case (Run(_), Lookup(ch)) => s.(pcs := s.pcs[cpu := if ch.cgid in s.stats then Add(ch) else Insert(ch)])
      case (Run(_), Insert(ch)) =>
        s.(stats := InsertNoExist(s.stats, cfg.capacity, ch.cgid), pcs := s.pcs[cpu := Relookup(ch)])
      case (Run(_), Relookup(ch)) => s.(pcs := s.pcs[cpu := if ch.cgid in s.stats then Add(ch) else Idle])
      case (Run(_), Add(ch)) =>
        if ch.cgid in s.stats then
          s.(stats := s.stats[ch.cgid := FetchAdd(s.stats[ch.cgid], ch.counter, ch.delta)],
             pcs := s.pcs[cpu := Idle])
        else s
      case _ => s
  }

  /** The state after a sequence of steps of n CPUs, from the empty map. */
  function After(cfg: Config, n: nat, steps: seq<Step>): State {
    if steps == [] then State(map[], seq(n, i => Idle), [])
    else Apply(cfg, After(cfg, n, steps[..|steps| - 1]), steps[|steps| - 1])
  }

  /** The charges a run of steps asked for: one for every tracepoint that hit an idle CPU and charges. */
  function FiredCharges(cfg: Config, n: nat, steps: seq<Step>): seq<Charge> {
    if steps == [] then []
    else
      var init := steps[..|steps| - 1];
      FiredCharges(cfg, n, init) + ChargesOf(cfg, After(cfg, n, init).pcs, steps[|steps| - 1])
  }

  /** The charge a step asks for, if it asks for one. */
  function ChargesOf(cfg: Config, pcs: seq<Pc>, step: Step): seq<Charge> {
    if step.Fire? && step.cpu < |pcs| && pcs[step.cpu].Idle?
       && ChargeOf(cfg, step.tp, step.cgid, step.reserved).Some?
    then [ChargeOf(cfg, step.tp, step.cgid, step.reserved).value] else []
  }

  lemma {:induction false} ChargedIsFired(cfg: Config, n: nat, steps: seq<Step>)
    ensures After(cfg, n, steps).charged == FiredCharges(cfg, n, steps)
  {
    if steps != [] {
      ChargedIsFired(cfg, n, steps[..|steps| - 1]);
    }
  }

  // ----- what should have been counted

  /** The sum of all charges made to one counter of one cgroup. */
  function ChargedTo(charged: seq<Charge>, cgid: Cgid, c: Counter): nat {
    if charged == [] then 0
    else ChargedTo(charged[..|charged| - 1], cgid, c) + Weight(charged[|charged| - 1], cgid, c)
  }

  function Weight(ch: Charge, cgid: Cgid, c: Counter): nat {
    if ch.cgid == cgid && ch.counter == c then ch.delta else 0
  }

  function PcWeight(pc: Pc, cgid: Cgid, c: Counter): nat {
    if pc.Idle? then 0 else Weight(pc.ch, cgid, c)
  }

  /** The charges still on their way, one at most per CPU. */
  function Pending(pcs: seq<Pc>, cgid: Cgid, c: Counter): nat {
    if pcs == [] then 0
    else Pending(pcs[..|pcs| - 1], cgid, c) + PcWeight(pcs[|pcs| - 1], cgid, c)
  }

  lemma {:induction false} PendingUpdate(pcs: seq<Pc>, cpu: nat, pc: Pc, cgid: Cgid, c: Counter)
    requires cpu < |pcs|
    ensures Pending(pcs[cpu := pc], cgid, c)
         == Pending(pcs, cgid, c) - PcWeight(pcs[cpu], cgid, c) + PcWeight(pc, cgid, c)
  {
    var n := |pcs| - 1;
    if cpu == n {
      assert pcs[cpu := pc][..n] == pcs[..n];
    } else {
      assert pcs[cpu := pc][..n] == pcs[..n][cpu := pc];
      PendingUpdate(pcs[..n], cpu, pc, cgid, c);
    }
  }

  ghost predicate AllIdle(pcs: seq<Pc>) {
    forall i :: 0 <= i < |pcs| ==> pcs[i] == Idle
  }

  lemma {:induction false} PendingIdle(pcs: seq<Pc>, cgid: Cgid, c: Counter)
    requires AllIdle(pcs)
    ensures Pending(pcs, cgid, c) == 0
  {
    if pcs != [] {
      PendingIdle(pcs[..|pcs| - 1], cgid, c);
    }
  }

  // ----- no update is lost

  ghost predicate Balanced(cfg: Config, s: State, cgid: Cgid, c: Counter) {
    if cgid in s.stats then
      Get(s.stats[cgid], c) + Pending(s.pcs, cgid, c) == ChargedTo(s.charged, cgid, c)
    else
      && Pending(s.pcs, cgid, c) <= ChargedTo(s.charged, cgid, c)
      && (Pending(s.pcs, cgid, c) == ChargedTo(s.charged, cgid, c) || |s.stats| >= cfg.capacity)
  }

  /** A CPU about to add holds a present entry; one about to look again failed only on a full map. */
  ghost predicate PcOk(cfg: Config, s: State, cpu: nat)
    requires cpu < |s.pcs|
  {
    match s.pcs[cpu]
    case Relookup(ch) => ch.cgid in s.stats || |s.stats| >= cfg.capacity
    case Add(ch) => ch.cgid in s.stats
    case _ => true
  }

  ghost predicate Inv(cfg: Config, s: State) {
    && |s.stats| <= cfg.capacity
    && (forall cpu :: 0 <= cpu < |s.pcs| ==> PcOk(cfg, s, cpu))
    && (forall cgid: Cgid, c :: Balanced(cfg, s, cgid, c))
  }

  lemma ChargedSnoc(charged: seq<Charge>, ch: Charge, cgid: Cgid, c: Counter)
    ensures ChargedTo(charged + [ch], cgid, c) == ChargedTo(charged, cgid, c) + Weight(ch, cgid, c)
  {
    assert (charged + [ch])[..|charged|] == charged;
  }

  /** A tracepoint charges and puts the charge on its way. */
  lemma BalancedFire(cfg: Config, s: State, step: Step, cgid: Cgid, c: Counter)
    requires Balanced(cfg, s, cgid, c) && step.Fire?
    ensures Balanced(cfg, Apply(cfg, s, step), cgid, c)
  {
    var s' := Apply(cfg, s, step);
    if s' != s {
      PendingUpdate(s.pcs, step.cpu, s'.pcs[step.cpu], cgid, c);
      ChargedSnoc(s.charged, s'.pcs[step.cpu].ch, cgid, c);
    }
  }

  /** Looking an entry up and inserting it only move the charge along; giving up needs a full map. */
  lemma BalancedMove(cfg: Config, s: State, cpu: nat, cgid: Cgid, c: Counter)
    requires Balanced(cfg, s, cgid, c) && cpu < |s.pcs| && PcOk(cfg, s, cpu) && !s.pcs[cpu].Add?
    ensures Balanced(cfg, Apply(cfg, s, Run(cpu)), cgid, c)
  {
    PendingUpdate(s.pcs, cpu, Apply(cfg, s, Run(cpu)).pcs[cpu], cgid, c);
  }

  /** The add takes the charge off its way and into the counter. */
  lemma BalancedAdd(cfg: Config, s: State, cpu: nat, cgid: Cgid, c: Counter)
    requires Balanced(cfg, s, cgid, c) && cpu < |s.pcs| && PcOk(cfg, s, cpu) && s.pcs[cpu].Add?
    ensures Balanced(cfg, Apply(cfg, s, Run(cpu)), cgid, c)
  {
    PendingUpdate(s.pcs, cpu, Idle, cgid, c);
  }

  lemma BalancedStep(cfg: Config, s: State, step: Step, cgid: Cgid, c: Counter)
    requires Inv(cfg, s)
    ensures Balanced(cfg, Apply(cfg, s, step), cgid, c)
  {
    assert Balanced(cfg, s, cgid, c);
    if step.cpu < |s.pcs| {
      assert PcOk(cfg, s, step.cpu);
      if step.Fire? {
        BalancedFire(cfg, s, step, cgid, c);
      } else if s.pcs[step.cpu].Add? {
        BalancedAdd(cfg, s, step.cpu, cgid, c);
      } else {
        BalancedMove(cfg, s, step.cpu, cgid, c);
      }
    }
  }

  lemma InvStep(cfg: Config, s: State, step: Step)
    requires Inv(cfg, s)
    ensures Inv(cfg, Apply(cfg, s, step))
    ensures s.stats.Keys <= Apply(cfg, s, step).stats.Keys
  {
    var s' := Apply(cfg, s, step);
    forall cgid: Cgid, c
      ensures Balanced(cfg, s', cgid, c)
    {
      BalancedStep(cfg, s, step, cgid, c);
    }
    forall cpu | 0 <= cpu < |s'.pcs|
      ensures PcOk(cfg, s', cpu)
    {
      assert PcOk(cfg, s, cpu);
    }
  }

  lemma {:induction false} InvAlways(cfg: Config, n: nat, steps: seq<Step>)
    ensures Inv(cfg, After(cfg, n, steps))
  {
    if steps == [] {
      forall cgid: Cgid, c
        ensures Balanced(cfg, After(cfg, n, []), cgid, c)
      {
        PendingIdle(seq(n, i => Idle), cgid, c);
      }
    } else {
      InvAlways(cfg, n, steps[..|steps| - 1]);
      InvStep(cfg, After(cfg, n, steps[..|steps| - 1]), steps[|steps| - 1]);
    }
  }

  /** Over every interleaving of any number of CPUs: at all times a counter plus what is on its way is
      what the tracepoints charged, once the CPUs are idle the counter alone is, and a cgroup that was
      charged without getting an entry met a full map. */
  lemma NoUpdateLost(cfg: Config, n: nat, steps: seq<Step>, cgid: Cgid, c: Counter)
    ensures
      var s, charged := After(cfg, n, steps), ChargedTo(FiredCharges(cfg, n, steps), cgid, c);
      && (cgid in s.stats ==> Get(s.stats[cgid], c) + Pending(s.pcs, cgid, c) == charged)
      && (AllIdle(s.pcs) && cgid in s.stats ==> Get(s.stats[cgid], c) == charged)
      && (AllIdle(s.pcs) && cgid !in s.stats && charged > 0 ==> |s.stats| == cfg.capacity)
  {
    InvAlways(cfg, n, steps);
    ChargedIsFired(cfg, n, steps);
    var s := After(cfg, n, steps);
    assert Balanced(cfg, s, cgid, c);
    if AllIdle(s.pcs) {
      PendingIdle(s.pcs, cgid, c);
    }
  }

  // ----- the same over the tracepoints of the trace

  /** A step is a tracepoint that hits an idle CPU for a cgroup the filter lets through. */
  ghost predicate Heard(cfg: Config, pcs: seq<Pc>, step: Step, cgid: Cgid) {
    && step.Fire? && step.cgid == cgid
    && step.cpu < |pcs| && pcs[step.cpu] == Idle
    && (cfg.filterEnabled ==> cgid in cfg.allowed)
  }

  /** What a tracepoint is to add to a counter: a runtime event its time, if that is at or above the threshold
      or there is none; the others one, if they were given a ring-buffer record. */
  function Adds(cfg: Config, tp: Tracepoint, reserved: bool, c: Counter): nat {
    match c
    case RuntimeNs => if tp.StatRuntime? && (cfg.threshold == 0 || tp.runtime >= cfg.threshold) then tp.runtime else 0
    case CtxSwitches => if tp.SchedSwitch? && reserved then 1 else 0
    case Wakeups => if tp.SchedWakeup? && reserved then 1 else 0
    case Migrations => if tp.MigrateTask? && reserved then 1 else 0
  }

  ghost function HeardNow(cfg: Config, pcs: seq<Pc>, step: Step, cgid: Cgid, c: Counter): nat {
    if Heard(cfg, pcs, step, cgid) then Adds(cfg, step.tp, step.reserved, c) else 0
  }

  /** What the tracepoints of a trace that were heard for a cgroup add up to. */
  ghost function TotalHeard(cfg: Config, n: nat, steps: seq<Step>, cgid: Cgid, c: Counter): nat {
    if steps == [] then 0
    else
      var init := steps[..|steps| - 1];
      TotalHeard(cfg, n, init, cgid, c) + HeardNow(cfg, After(cfg, n, init).pcs, steps[|steps| - 1], cgid, c)
  }

  lemma ChargedNow(cfg: Config, pcs: seq<Pc>, step: Step, charged: seq<Charge>, cgid: Cgid, c: Counter)
    ensures ChargedTo(charged + ChargesOf(cfg, pcs, step), cgid, c)
         == ChargedTo(charged, cgid, c) + HeardNow(cfg, pcs, step, cgid, c)
  {
    if ChargesOf(cfg, pcs, step) == [] {
      assert charged + [] == charged;
    } else {
      ChargedSnoc(charged, ChargesOf(cfg, pcs, step)[0], cgid, c);
    }
  }

  /** What was charged is what was heard. */
  lemma {:induction false} ChargedIsHeard(cfg: Config, n: nat, steps: seq<Step>, cgid: Cgid, c: Counter)
    ensures ChargedTo(FiredCharges(cfg, n, steps), cgid, c) == TotalHeard(cfg, n, steps, cgid, c)
  {
    if steps != [] {
      var init := steps[..|steps| - 1];
      ChargedIsHeard(cfg, n, init, cgid, c);
      ChargedNow(cfg, After(cfg, n, init).pcs, steps[|steps| - 1], FiredCharges(cfg, n, init), cgid, c);
    }
  }

  /** Once all CPUs are idle, over every interleaving of any number of them, an entry's runtime is the time of
      the runtime events that filter and threshold let through, and its event counts are the numbers of
      switches, wakeups and migrations that the filter let through and that were given a record. A cgroup for
      which anything was heard has an entry, or met a full map. */
  lemma EntryIsWhatWasHeard(cfg: Config, n: nat, steps: seq<Step>, cgid: Cgid, c: Counter)
    requires AllIdle(After(cfg, n, steps).pcs)
    ensures
      var stats := After(cfg, n, steps).stats;
      if cgid in stats then
        && (c.RuntimeNs? ==> stats[cgid].runtimeNs == TotalHeard(cfg, n, steps, cgid, c))
        && (c.CtxSwitches? ==> stats[cgid].ctxSwitches == TotalHeard(cfg, n, steps, cgid, c))
        && (c.Wakeups? ==> stats[cgid].wakeups == TotalHeard(cfg, n, steps, cgid, c))
        && (c.Migrations? ==> stats[cgid].migrations == TotalHeard(cfg, n, steps, cgid, c))
      else TotalHeard(cfg, n, steps, cgid, c) > 0 ==> |stats| == cfg.capacity
  {
    ChargedIsHeard(cfg, n, steps, cgid, c);
    NoUpdateLost(cfg, n, steps, cgid, c);
  }

  /** The pointer a CPU is about to add through always leads to a live entry. */
  lemma AddNeverMisses(cfg: Config, n: nat, steps: seq<Step>, cpu: nat)
    requires cpu < |After(cfg, n, steps).pcs| && After(cfg, n, steps).pcs[cpu].Add?
    ensures After(cfg, n, steps).pcs[cpu].ch.cgid in After(cfg, n, steps).stats
  {
    InvAlways(cfg, n, steps);
    assert PcOk(cfg, After(cfg, n, steps), cpu);
  }

  /** Entries are never deleted, so a full map keeps the same cgroups for good. */
  lemma {:induction false} FullStaysFull(cfg: Config, n: nat, steps: seq<Step>, more: seq<Step>)
    ensures After(cfg, n, steps).stats.Keys <= After(cfg, n, steps + more).stats.Keys
    ensures |After(cfg, n, steps).stats| >= cfg.capacity ==>
              After(cfg, n, steps).stats.Keys == After(cfg, n, steps + more).stats.Keys
  {
    if more == [] {
      assert steps + more == steps;
    } else {
      var m := |more| - 1;
      FullStaysFull(cfg, n, steps, more[..m]);
      assert (steps + more)[..|steps + more| - 1] == steps + more[..m];
      InvAlways(cfg, n, steps + more[..m]);
      InvStep(cfg, After(cfg, n, steps + more[..m]), more[m]);
    }
    InvAlways(cfg, n, steps + more);
    SubsetSize(After(cfg, n, steps).stats.Keys, After(cfg, n, steps + more).stats.Keys);
  }

  // ----- the helpers as written, on a map of their own

  /** The entry of a cgroup, all zero if it has none yet. */
  function EntryOf(stats: map<Cgid, CgStat>, cgid: Cgid): CgStat {
    if cgid in stats then stats[cgid] else CgStat(0, 0, 0, 0, 0)
  }

  /** The filter lets a cgroup through. */
  predicate LetThrough(cfg: Config, cgid: Cgid) {
    cfg.filterEnabled ==> cgid in cfg.allowed
  }

  class StatsMap {
    const capacity: nat
    var stats: map<Cgid, CgStat>

    constructor (capacity: nat)
      ensures this.capacity == capacity && stats == map[]
    {
      this.capacity := capacity;
      stats := map[];
    }

    /** Looks the entry up, inserting zeros first when it is absent. */
    method FindOrInsert(cgid: Cgid) returns (found: bool)
      modifies this`stats
      ensures stats == InsertNoExist(old(stats), capacity, cgid)
      ensures found == (cgid in stats)
    {
      if cgid !in stats {
        if |stats| < capacity {
          stats := stats[cgid := ZERO];
        }
        return cgid in stats;
      }
      return true;
    }

    method AddRuntime(cgid: Cgid, delta: nat)
      modifies this`stats
      ensures stats == Alone(old(stats), capacity, Charge(cgid, RuntimeNs, delta))
    {
      var found := FindOrInsert(cgid);
      if found {
        stats := stats[cgid := FetchAdd(stats[cgid], RuntimeNs, delta)];
      }
    }

    /** `which` is 0 for a context switch, 1 for a wakeup, 2 for a migration; others only make the entry. */
    method Inc(cgid: Cgid, which: int)
      modifies this`stats
      ensures which == 0 ==> stats == Alone(old(stats), capacity, Charge(cgid, CtxSwitches, 1))
      ensures which == 1 ==> stats == Alone(old(stats), capacity, Charge(cgid, Wakeups, 1))
      ensures which == 2 ==> stats == Alone(old(stats), capacity, Charge(cgid, Migrations, 1))
      ensures which !in {0, 1, 2} ==> stats == InsertNoExist(old(stats), capacity, cgid)
    {
      var found := FindOrInsert(cgid);
      if !found {
        return;
      }
      if which == 0 {
        stats := stats[cgid := FetchAdd(stats[cgid], CtxSwitches, 1)];
      } else if which == 1 {
        stats := stats[cgid := FetchAdd(stats[cgid], Wakeups, 1)];
      } else if which == 2 {
        stats := stats[cgid := FetchAdd(stats[cgid], Migrations, 1)];
      }
    }

    method AllowedCgroup(cfg: Config, cgid: Cgid) returns (allow: bool)
      ensures allow == AllowCgroup(cfg, cgid)
    {
      if !cfg.filterEnabled {
        return true;
      }
      return cgid in cfg.allowed;
    }

    method TpSchedSwitch(cfg: Config, cgid: Cgid, reserved: bool)
      modifies this`stats
      ensures stats == Handled(old(stats), capacity, ChargeOf(cfg, SchedSwitch, cgid, reserved))
      ensures
        var v := EntryOf(old(stats), cgid);
        stats == if LetThrough(cfg, cgid) && reserved && (cgid in old(stats) || |old(stats)| < capacity)
                 then old(stats)[cgid := v.(ctxSwitches := v.ctxSwitches + 1)] else old(stats)
    {
      var allow := AllowedCgroup(cfg, cgid);
      if !allow || !reserved {
        return;
      }
      Inc(cgid, 0);
    }

    method TpSchedWakeup(cfg: Config, cgid: Cgid, reserved: bool)
      modifies this`stats
      ensures stats == Handled(old(stats), capacity, ChargeOf(cfg, SchedWakeup, cgid, reserved))
      ensures
        var v := EntryOf(old(stats), cgid);
        stats == if LetThrough(cfg, cgid) && reserved && (cgid in old(stats) || |old(stats)| < capacity)
                 then old(stats)[cgid := v.(wakeups := v.wakeups + 1)] else old(stats)
    {
      var allow := AllowedCgroup(cfg, cgid);
      if !allow || !reserved {
        return;
      }
      Inc(cgid, 1);
    }

    method TpSchedStatRuntime(cfg: Config, cgid: Cgid, runtime: nat, reserved: bool)
      modifies this`stats
      ensures stats == Handled(old(stats), capacity, ChargeOf(cfg, StatRuntime(runtime), cgid, reserved))
      ensures
        var v := EntryOf(old(stats), cgid);
        stats == if LetThrough(cfg, cgid) && (cfg.threshold == 0 || runtime >= cfg.threshold) && (cgid in old(stats) || |old(stats)| < capacity)
                 then old(stats)[cgid := v.(runtimeNs := v.runtimeNs + runtime)] else old(stats)
    {
      var allow := AllowedCgroup(cfg, cgid);
      if !allow {
        return;
      }
      if cfg.threshold != 0 && runtime < cfg.threshold {
        return;
      }
      AddRuntime(cgid, runtime);
    }

    method TpSchedMigrateTask(cfg: Config, cgid: Cgid, reserved: bool)
      modifies this`stats
      ensures stats == Handled(old(stats), capacity, ChargeOf(cfg, MigrateTask, cgid, reserved))
      ensures
        var v := EntryOf(old(stats), cgid);
        stats == if LetThrough(cfg, cgid) && reserved && (cgid in old(stats) || |old(stats)| < capacity)
                 then old(stats)[cgid := v.(migrations := v.migrations + 1)] else old(stats)
    {
      var allow := AllowedCgroup(cfg, cgid);
      if !allow || !reserved {
        return;
      }
      Inc(cgid, 2);
    }
  }

  function Handled(stats: map<Cgid, CgStat>, capacity: nat, ch: Option<Charge>): map<Cgid, CgStat> {
    if ch.Some? then Alone(stats, capacity, ch.value) else stats
  }

  /** A charge with no other CPU in between. */
  function Alone(stats: map<Cgid, CgStat>, capacity: nat, ch: Charge): map<Cgid, CgStat> {
    var inserted := InsertNoExist(stats, capacity, ch.cgid);
    if ch.cgid in inserted then inserted[ch.cgid := FetchAdd(inserted[ch.cgid], ch.counter, ch.delta)]
    else inserted
  }

  function RunTimes(cfg: Config, s: State, cpu: nat, k: nat): State {
    if k == 0 then s else Apply(cfg, RunTimes(cfg, s, cpu, k - 1), Run(cpu))
  }

  /** The sequential helpers are the interleaved machine run without interruption: from a lookup, at
      most four steps of that CPU bring it back to idle with the helper's result. */
  lemma AloneIsUninterrupted(cfg: Config, s: State, cpu: nat)
    requires cpu < |s.pcs| && s.pcs[cpu].Lookup?
    ensures exists k: nat | k <= 4 ::
              RunTimes(cfg, s, cpu, k)
              == s.(stats := Alone(s.stats, cfg.capacity, s.pcs[cpu].ch), pcs := s.pcs[cpu := Idle])
  {
    var ch := s.pcs[cpu].ch;
    var done := s.(stats := Alone(s.stats, cfg.capacity, ch), pcs := s.pcs[cpu := Idle]);
    var s1 := Apply(cfg, s, Run(cpu));
    var s2 := Apply(cfg, s1, Run(cpu));
    assert RunTimes(cfg, s, cpu, 0) == s;
    assert RunTimes(cfg, s, cpu, 1) == s1;
    assert RunTimes(cfg, s, cpu, 2) == s2;
    if ch.cgid in s.stats {
      assert s1.pcs[cpu] == Add(ch);
      assert s2.pcs == done.pcs;
      assert RunTimes(cfg, s, cpu, 2) == done;
    } else {
      assert s1.pcs[cpu] == Insert(ch) && s2.pcs[cpu] == Relookup(ch);
      var s3 := Apply(cfg, s2, Run(cpu));
      assert RunTimes(cfg, s, cpu, 3) == s3;
      if ch.cgid in s2.stats {
        var s4 := Apply(cfg, s3, Run(cpu));
        assert s3.pcs[cpu] == Add(ch);
        assert s4.pcs == done.pcs;
        assert RunTimes(cfg, s, cpu, 4) == s4 == done;
      } else {
        assert s3.pcs == done.pcs;
        assert RunTimes(cfg, s, cpu, 3) == done;
      }
    }
  }
}
