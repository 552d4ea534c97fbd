/**
 Syscall accounting: a start map keyed by thread and syscall number, filled on entry and consumed on
 exit, and per-CPU counts and latencies. The reference side pairs each exit with the entry of the same
 thread in the trace.
 */
module Syscalls {
  import opened Common
  import opened BpfCommon

  type Tid = nat
  type Sys = nat
  type Key = (Cgid, Sys)

  datatype Event =
    | Enter(cpu: nat, tid: Tid, sys: Sys, ts: nat, task: Task)
    | Exit(cpu: nat, tid: Tid, sys: Sys, ts: nat)
    | Evict(tid: Tid, sys: Sys)
    | SetCfg(cfg: Cfg)

  datatype Setup = Setup(ncpu: nat, capacity: nat, cfg0: Cfg)

  datatype StartVal = StartVal(ts: nat, cgid: Cgid)

  datatype State = State(cfg: Cfg, start: map<(Tid, Sys), StartVal>, cnt: map<Key, seq<nat>>, lat: map<Key, seq<nat>>)

  ghost predicate Shaped(su: Setup, s: State) {
    SlotsOk(s.cnt, su.ncpu) && SlotsOk(s.lat, su.ncpu)
  }

  function Duration(now: nat, ts: nat): nat {
    if now > ts then now - ts else 0
  }

  function Step(su: Setup, s: State, e: Event): (s': State)
    requires Shaped(su, s)
    ensures Shaped(su, s')
  {
    match e
    case SetCfg(cfg) => s.(cfg := cfg)
    case Evict(tid, sys) => s.(start := s.start - {(tid, sys)})
    case Enter(cpu, tid, sys, ts, task) =>
      if InTarget(s.cfg, task) then s.(start := s.start[(tid, sys) := StartVal(ts, task.cgid)]) else s
    case Exit(cpu, tid, sys, ts) =>
      if (tid, sys) !in s.start || cpu >= su.ncpu then s
      else
        var sv := s.start[(tid, sys)];
        var key := (sv.cgid, sys);
        s.(start := s.start - {(tid, sys)},
           cnt := Added(s.cnt, su.capacity, su.ncpu, key, cpu, 1),
           lat := Added(s.lat, su.capacity, su.ncpu, key, cpu, Duration(ts, sv.ts)))
  }

  function Run(su: Setup, trace: seq<Event>): (s: State)
    ensures Shaped(su, s)
  {
    if trace == [] then State(su.cfg0, map[], map[], map[])
    else Step(su, Run(su, trace[..|trace| - 1]), trace[|trace| - 1])
  }

  // ----- reading the trace

  ghost function CfgAt(su: Setup, trace: seq<Event>): Cfg {
    if trace == [] then su.cfg0
    else if trace[|trace| - 1].SetCfg? then trace[|trace| - 1].cfg
    else CfgAt(su, trace[..|trace| - 1])
  }

  ghost predicate OfThread(e: Event, tid: Tid) {
    (e.Enter? || e.Exit?) && e.tid == tid
  }

  /** Position of the entry of the call a thread is in, if it is in one. */
  ghost function InFlight(trace: seq<Event>, tid: Tid): (r: Option<nat>)
    ensures r.Some? ==> r.value < |trace| && trace[r.value].Enter? && trace[r.value].tid == tid
  {
    if trace == [] then None
    else
      var n := |trace| - 1;
      if OfThread(trace[n], tid) then (if trace[n].Enter? then Some(n) else None)
      else InFlight(trace[..n], tid)
  }

  /** Time of the last timed event. */
  ghost function Clock(trace: seq<Event>): nat {
    if trace == [] then 0
    else if trace[|trace| - 1].Enter? || trace[|trace| - 1].Exit? then trace[|trace| - 1].ts
    else Clock(trace[..|trace| - 1])
  }

  /** Traces a machine can produce: each thread alternates entries and exits of one syscall at a time
      (an exit whose entry came before tracing began may stand alone), on some CPU, and the clock
      does not run backwards. */
  ghost predicate WellFormed(su: Setup, trace: seq<Event>) {
    if trace == [] then true
    else
      var init, e := trace[..|trace| - 1], trace[|trace| - 1];
      && WellFormed(su, init)
      && (e.Enter? ==> e.ts >= Clock(init) && InFlight(init, e.tid).None?)
      && (e.Exit? ==>
            && e.ts >= Clock(init) && e.cpu < su.ncpu
            && (InFlight(init, e.tid).Some? ==> init[InFlight(init, e.tid).value].sys == e.sys))
  }

  /** The entry at position i passed the filter under the configuration then in force. */
  ghost predicate PassedOnEntry(su: Setup, trace: seq<Event>, i: nat)
    requires i < |trace| && trace[i].Enter?
  {
    InTarget(CfgAt(su, trace[..i]), trace[i].task)
  }

  ghost predicate EvictedSince(trace: seq<Event>, i: nat)
    requires i < |trace| && trace[i].Enter?
  {
    exists k :: i < k < |trace| && trace[k] == Evict(trace[i].tid, trace[i].sys)
  }

  /** The thread is in a call that passed the filter on entry and was not evicted since. */
  ghost predicate Tracked(su: Setup, trace: seq<Event>, tid: Tid) {
    var i := InFlight(trace, tid);
    i.Some? && PassedOnEntry(su, trace, i.value) && !EvictedSince(trace, i.value)
  }

  /** The last event completes a recorded call. */
  ghost predicate Completes(su: Setup, trace: seq<Event>, key: Key) {
    && trace != [] && trace[|trace| - 1].Exit?
    && var init, e := trace[..|trace| - 1], trace[|trace| - 1];
       && Tracked(su, init, e.tid)
       && (init[InFlight(init, e.tid).value].task.cgid, e.sys) == key
  }

  /** The number of recorded completed calls of a cgroup and syscall. */
  ghost function RecordedCalls(su: Setup, trace: seq<Event>, key: Key): nat {
    if trace == [] then 0
    else RecordedCalls(su, trace[..|trace| - 1], key) + if Completes(su, trace, key) then 1 else 0
  }

  /** The time the call completed by the last event took, from the trace alone. */
  ghost function CallTime(trace: seq<Event>): int
    requires trace != [] && trace[|trace| - 1].Exit?
    requires InFlight(trace[..|trace| - 1], trace[|trace| - 1].tid).Some?
  {
    trace[|trace| - 1].ts - trace[InFlight(trace[..|trace| - 1], trace[|trace| - 1].tid).value].ts
  }

  ghost function RecordedNs(su: Setup, trace: seq<Event>, key: Key): int {
    if trace == [] then 0
    else RecordedNs(su, trace[..|trace| - 1], key) + if Completes(su, trace, key) then CallTime(trace) else 0
  }

  // ----- the start map holds exactly the tracked calls

  ghost predicate StartAgrees(su: Setup, trace: seq<Event>, tid: Tid, sys: Sys) {
    var start := Run(su, trace).start;
    && ((tid, sys) in start <==> Tracked(su, trace, tid) && trace[InFlight(trace, tid).value].sys == sys)
    && ((tid, sys) in start ==>
          var entry := trace[InFlight(trace, tid).value];
          start[(tid, sys)] == StartVal(entry.ts, entry.task.cgid))
  }

  lemma {:induction false} RunCfg(su: Setup, trace: seq<Event>)
    ensures Run(su, trace).cfg == CfgAt(su, trace)
  {
    if trace != [] {
      RunCfg(su, trace[..|trace| - 1]);
    }
  }

  /** An event of another thread, or of none, leaves a tracked call alone unless it evicts it. */
  lemma TrackedFrame(su: Setup, trace: seq<Event>, tid: Tid)
    requires trace != [] && !OfThread(trace[|trace| - 1], tid)
    ensures
      var init := trace[..|trace| - 1];
      && InFlight(trace, tid) == InFlight(init, tid)
      && (Tracked(su, trace, tid) <==>
            Tracked(su, init, tid) && trace[|trace| - 1] != Evict(tid, init[InFlight(init, tid).value].sys))
  {
    var n := |trace| - 1;
    var init := trace[..n];
    if InFlight(init, tid).Some? {
      var i := InFlight(init, tid).value;
      assert init[..i] == trace[..i];
      if EvictedSince(trace, i) && trace[n] != Evict(tid, trace[i].sys) {
        var k :| i < k < |trace| && trace[k] == Evict(trace[i].tid, trace[i].sys);
        assert init[k] == trace[k];
      }
      if EvictedSince(init, i) {
        var k :| i < k < |init| && init[k] == Evict(init[i].tid, init[i].sys);
        assert trace[k] == init[k];
      }
    }
  }

  lemma EnterTracks(su: Setup, trace: seq<Event>)
    requires trace != [] && trace[|trace| - 1].Enter?
    ensures
      var n := |trace| - 1;
      && InFlight(trace, trace[n].tid) == Some(n)
      && (Tracked(su, trace, trace[n].tid) <==> InTarget(CfgAt(su, trace[..n]), trace[n].task))
  {
  }

  /** The start map holds exactly the calls in flight that passed the filter and were not evicted, each
      with its true start time and cgroup. */
  lemma {:induction false} StartMapIsExact(su: Setup, trace: seq<Event>, tid: Tid, sys: Sys)
    requires WellFormed(su, trace)
    ensures StartAgrees(su, trace, tid, sys)
  {
    if trace != [] {
      var n := |trace| - 1;
      var init, e := trace[..n], trace[n];
      RunCfg(su, init);
      StartMapIsExact(su, init, tid, sys);
      if OfThread(e, tid) {
        if e.Enter? {
          EnterTracks(su, trace);
        } else {
          StartMapIsExact(su, init, tid, e.sys);
        }
      } else {
        TrackedFrame(su, trace, tid);
      }
    }
  }

  lemma {:induction false} ClockAfterEntry(su: Setup, trace: seq<Event>, i: nat)
    requires WellFormed(su, trace) && i < |trace| && trace[i].Enter?
    ensures trace[i].ts <= Clock(trace)
  {
    var n := |trace| - 1;
    if i < n {
      ClockAfterEntry(su, trace[..n], i);
    }
  }

  /** What the machine adds for a key at one event is what the trace says was completed. */
  lemma ExitContributes(su: Setup, trace: seq<Event>, key: Key)
    requires WellFormed(su, trace) && trace != [] && trace[|trace| - 1].Exit?
    ensures
      var e, s := trace[|trace| - 1], Run(su, trace[..|trace| - 1]);
      && (Completes(su, trace, key) <==> (e.tid, e.sys) in s.start && (s.start[(e.tid, e.sys)].cgid, e.sys) == key)
      && (Completes(su, trace, key) ==> CallTime(trace) == Duration(e.ts, s.start[(e.tid, e.sys)].ts))
  {
    var init, e := trace[..|trace| - 1], trace[|trace| - 1];
    StartMapIsExact(su, init, e.tid, e.sys);
    if InFlight(init, e.tid).Some? {
      ClockAfterEntry(su, init, InFlight(init, e.tid).value);
    }
  }

  ghost predicate AccountsBoth(su: Setup, trace: seq<Event>, key: Key) {
    && RecordedNs(su, trace, key) >= 0
    && Accounts(Run(su, trace).cnt, su.capacity, key, RecordedCalls(su, trace, key))
    && Accounts(Run(su, trace).lat, su.capacity, key, RecordedNs(su, trace, key))
  }

  lemma ExitIsExact(su: Setup, trace: seq<Event>, key: Key)
    requires WellFormed(su, trace) && trace != [] && trace[|trace| - 1].Exit?
    requires AccountsBoth(su, trace[..|trace| - 1], key)
    ensures AccountsBoth(su, trace, key)
  {
    var init, e := trace[..|trace| - 1], trace[|trace| - 1];
    ExitContributes(su, trace, key);
    var s := Run(su, init);
    if (e.tid, e.sys) in s.start {
      var sv := s.start[(e.tid, e.sys)];
      var k := (sv.cgid, e.sys);
      AddedAccounts(s.cnt, su.capacity, su.ncpu, k, e.cpu, 1, key, RecordedCalls(su, init, key));
      AddedAccounts(s.lat, su.capacity, su.ncpu, k, e.cpu, Duration(e.ts, sv.ts), key, RecordedNs(su, init, key));
    }
  }

  /** Counts and latencies, summed over CPUs, are the number and the total duration of the recorded
      completed calls, through CPU migration, eviction and reconfiguration. */
  lemma {:induction false} SyscallAccountingIsExact(su: Setup, trace: seq<Event>, key: Key)
    requires WellFormed(su, trace)
    ensures RecordedNs(su, trace, key) >= 0
    ensures Accounts(Run(su, trace).cnt, su.capacity, key, RecordedCalls(su, trace, key))
    ensures Accounts(Run(su, trace).lat, su.capacity, key, RecordedNs(su, trace, key))
  {
    if trace != [] {
      SyscallAccountingIsExact(su, trace[..|trace| - 1], key);
      if trace[|trace| - 1].Exit? {
        ExitIsExact(su, trace, key);
      }
    }
  }

  /** The last event completes a call that passed the filter on entry, evicted or not. */
  ghost predicate CompletesFiltered(su: Setup, trace: seq<Event>, key: Key) {
    && trace != [] && trace[|trace| - 1].Exit?
    && var init, e := trace[..|trace| - 1], trace[|trace| - 1];
       var i := InFlight(init, e.tid);
       i.Some? && PassedOnEntry(su, init, i.value) && (init[i.value].task.cgid, e.sys) == key
  }

  ghost function FilteredCalls(su: Setup, trace: seq<Event>, key: Key): nat {
    if trace == [] then 0
    else FilteredCalls(su, trace[..|trace| - 1], key) + if CompletesFiltered(su, trace, key) then 1 else 0
  }

  ghost function FilteredNs(su: Setup, trace: seq<Event>, key: Key): int {
    if trace == [] then 0
    else FilteredNs(su, trace[..|trace| - 1], key) + if CompletesFiltered(su, trace, key) then CallTime(trace) else 0
  }

  /** Eviction only ever loses calls; without it, every completed call that passed the filter on entry
      is recorded. */
  lemma {:induction false} OnlyEvictionLosesCalls(su: Setup, trace: seq<Event>, key: Key)
    ensures RecordedCalls(su, trace, key) <= FilteredCalls(su, trace, key)
    ensures (forall k :: 0 <= k < |trace| ==> !trace[k].Evict?) ==>
              && RecordedCalls(su, trace, key) == FilteredCalls(su, trace, key)
              && RecordedNs(su, trace, key) == FilteredNs(su, trace, key)
  {
    if trace != [] {
      OnlyEvictionLosesCalls(su, trace[..|trace| - 1], key);
    }
  }

  /** The least such trace: one call, entered and left, is counted once with its duration. */
  lemma OneCall(su: Setup, tid: Tid, sys: Sys, t0: nat, t1: nat, task: Task)
    requires su.ncpu > 0 && su.capacity > 0 && t0 <= t1 && Inside(su.cfg0, task)
    ensures
      var trace := [Enter(0, tid, sys, t0, task), Exit(0, tid, sys, t1)];
      var key, s := (task.cgid, sys), Run(su, trace);
      && WellFormed(su, trace) && s.start == map[]
      && key in s.cnt && Sum(s.cnt[key]) == 1
      && key in s.lat && Sum(s.lat[key]) == t1 - t0
  {
    var one: seq<Event> := [Enter(0, tid, sys, t0, task)];
    var two := one + [Exit(0, tid, sys, t1)];
    assert one[..0] == [] && two[..1] == one;
    InsideIsInTarget(su.cfg0, task);
    var key, sv := (task.cgid, sys), StartVal(t0, task.cgid);
    assert Run(su, one) == State(su.cfg0, map[(tid, sys) := sv], map[], map[]);
    AddedAccounts(map[], su.capacity, su.ncpu, key, 0, 1, key, 0);
    AddedAccounts(map[], su.capacity, su.ncpu, key, 0, Duration(t1, t0), key, 0);
    assert InFlight([], tid) == None && Clock([]) == 0;
    assert InFlight(one, tid) == Some(0) && Clock(one) == t0 && WellFormed(su, one);
    assert two == [Enter(0, tid, sys, t0, task), Exit(0, tid, sys, t1)];
  }

  // ----- the handlers as written

  class SysObject {
    const su: Setup
    var cfg: Cfg
    var start: map<(Tid, Sys), StartVal>
    var cnt: map<Key, seq<nat>>
    var lat: map<Key, seq<nat>>

    ghost function View(): State
      reads this
    {
      State(cfg, start, cnt, lat)
    }

    ghost predicate Valid()
      reads this
    {
      Shaped(su, View())
    }

    constructor (su: Setup)
      ensures this.su == su && Valid() && View() == Run(su, [])
    {
      this.su := su;
      cfg := su.cfg0;
      start, cnt, lat := map[], map[], map[];
    }

    method TpSysEnter(cpu: nat, tid: Tid, sys: Sys, now: nat, task: Task)
      requires Valid()
      modifies this`start
      ensures Valid() && View() == Step(su, old(View()), Enter(cpu, tid, sys, now, task))
      ensures start == if Inside(cfg, task) then old(start)[(tid, sys) := StartVal(now, task.cgid)] else old(start)
    {
      if cfg.enableFilter {
        var anc := AncestorAt(task, cfg.targetLevel);
        if !(anc != 0 && anc == cfg.targetCgid) {
          return;
        }
      }
      start := start[(tid, sys) := StartVal(now, task.cgid)];
    }

    method TpSysExit(cpu: nat, tid: Tid, sys: Sys, now: nat)
      requires Valid() && cpu < su.ncpu
      modifies this
      ensures Valid() && View() == Step(su, old(View()), Exit(cpu, tid, sys, now))
      ensures cfg == old(cfg)
      ensures (tid, sys) !in old(start) ==> start == old(start) && cnt == old(cnt) && lat == old(lat)
      ensures (tid, sys) in old(start) ==>
                var sv := old(start)[(tid, sys)];
                && start == old(start) - {(tid, sys)}
                && cnt == Added(old(cnt), su.capacity, su.ncpu, (sv.cgid, sys), cpu, 1)
                && lat == Added(old(lat), su.capacity, su.ncpu, (sv.cgid, sys), cpu, if now > sv.ts then now - sv.ts else 0)
    {
      if (tid, sys) !in start {
        return;
      }
      var sv := start[(tid, sys)];
      var dt := if now > sv.ts then now - sv.ts else 0;
      var agg := (sv.cgid, sys);
      cnt := AddU64(cnt, su.capacity, su.ncpu, agg, cpu, 1);
      lat := AddU64(lat, su.capacity, su.ncpu, agg, cpu, dt);
      start := start - {(tid, sys)};
    }

    method EvictStart(tid: Tid, sys: Sys)
      requires Valid()
      modifies this`start
      ensures Valid() && View() == Step(su, old(View()), Evict(tid, sys))
    {
      start := start - {(tid, sys)};
    }
  }
}
