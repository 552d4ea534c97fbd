/**
 Kernel side and collector together: probe hits, evictions and configuration writes interleaved with
 allow-list refreshes and scan rows.
 */
module Pipeline {
  import opened Common
  import opened BpfCommon
  import opened BpfAccounting
  import Collector

  datatype Event = Kernel(e: BpfAccounting.Event) | Refresh(allowed: set<Cgid>) | Look(k: Key)

  /** What the kernel side saw of a run. */
  function KernelPart(trace: seq<Event>): seq<BpfAccounting.Event> {
    if trace == [] then []
    else KernelPart(trace[..|trace| - 1]) + if trace[|trace| - 1].Kernel? then [trace[|trace| - 1].e] else []
  }

  /** The increment a program run makes to one table, if it makes one. */
  function IncOf(su: Setup, s: State, cpu: nat, eff: Effect, table: nat): Option<Collector.Event>
    requires Shaped(su, s)
  {
    var cache := Cache(s.pidCgid, eff);
    if cpu >= su.ncpu || eff.charge.None? || Resolve(cache, eff.charge.value.who).None? then None
    else
      var ch, cgid := eff.charge.value, Resolve(cache, eff.charge.value.who).value;
      var count := if StandsStill(su.kind, Rate(s.cfg)) then s.perCpuCnt[cpu] else s.perCpuCnt[cpu] + 1;
      if !Passes(Rate(s.cfg), count) || Refused(su.kind, ch.who, cgid, ch.delta) || ch.table != table then None
      else Some(Collector.Inc((cgid, ch.kind), cpu, ch.delta))
  }

  /** The run as the collector model sees it: increments of one table, refreshes and rows. */
  function CollectorPart(su: Setup, table: nat, trace: seq<Event>): seq<Collector.Event> {
    if trace == [] then []
    else
      var init := trace[..|trace| - 1];
      CollectorPart(su, table, init)
      + match trace[|trace| - 1]
        case Kernel(Fire(cpu, task, probe)) =>
          var s := Run(su, KernelPart(init));
          var inc := IncOf(su, s, cpu, EffectOf(su.kind, s.cfg, task, probe), table);
          if inc.Some? then [inc.value] else []
        case Kernel(_) => []
        case Refresh(a) => [Collector.Refresh(a)]
        case Look(k) => [Collector.Look(k)]
  }

  function Shape(su: Setup): Collector.Setup {
    Collector.Setup(su.ncpu, su.capacity)
  }

  lemma FiredIsInc(su: Setup, s: State, cpu: nat, eff: Effect, table: nat)
    requires Shaped(su, s) && table < TABLES
    ensures Fired(su, s, cpu, eff).tables[table]
         == match IncOf(su, s, cpu, eff, table)
            case None => s.tables[table]
            case Some(inc) => Added(s.tables[table], su.capacity, su.ncpu, inc.k, inc.cpu, inc.delta)
    ensures IncOf(su, s, cpu, eff, table).Some? ==>
              IncOf(su, s, cpu, eff, table).value.Inc? && IncOf(su, s, cpu, eff, table).value.cpu < su.ncpu
  {
  }

  lemma KernelSnoc(cs: Collector.Setup, t: seq<Collector.Event>, e: Collector.Event)
    ensures Collector.KernelAt(cs, t + [e])
         == if e.Inc? && e.cpu < cs.ncpu
            then Added(Collector.KernelAt(cs, t), cs.capacity, cs.ncpu, e.k, e.cpu, e.delta)
            else Collector.KernelAt(cs, t)
  {
    assert (t + [e])[..|t|] == t;
  }

  /** The table the collector scans is the table the programs filled. */
  lemma {:induction false} SameTable(su: Setup, table: nat, trace: seq<Event>)
    requires table < TABLES
    ensures Collector.KernelAt(Shape(su), CollectorPart(su, table, trace)) == Run(su, KernelPart(trace)).tables[table]
  {
    if trace != [] {
      var init, e := trace[..|trace| - 1], trace[|trace| - 1];
      SameTable(su, table, init);
      var t, k := CollectorPart(su, table, init), KernelPart(init);
      match e {
        case Refresh(a) =>
          KernelSnoc(Shape(su), t, Collector.Refresh(a));
          assert KernelPart(trace) == k;
        case Look(key) =>
          KernelSnoc(Shape(su), t, Collector.Look(key));
          assert KernelPart(trace) == k;
        case Kernel(ke) =>
          assert (k + [ke])[..|k|] == k;
          if ke.Fire? {
            KernelFire(su, table, init, ke);
          } else {
            assert CollectorPart(su, table, trace) == t;
          }
      }
    }
  }

  lemma KernelFire(su: Setup, table: nat, init: seq<Event>, ke: BpfAccounting.Event)
    requires table < TABLES && ke.Fire?
    requires Collector.KernelAt(Shape(su), CollectorPart(su, table, init)) == Run(su, KernelPart(init)).tables[table]
    ensures
      var s := Run(su, KernelPart(init));
      var inc := IncOf(su, s, ke.cpu, EffectOf(su.kind, s.cfg, ke.task, ke.probe), table);
      Collector.KernelAt(Shape(su), CollectorPart(su, table, init) + if inc.Some? then [inc.value] else [])
      == Step(su, s, ke).tables[table]
  {
    var s := Run(su, KernelPart(init));
    var eff := EffectOf(su.kind, s.cfg, ke.task, ke.probe);
    var t := CollectorPart(su, table, init);
    FiredIsInc(su, s, ke.cpu, eff, table);
    var inc := IncOf(su, s, ke.cpu, eff, table);
    if inc.Some? {
      KernelSnoc(Shape(su), t, inc.value);
    } else {
      assert t + [] == t;
    }
  }

  /** End to end: right after a scan row, while every scan has found its cgroup allowed, the exported counter
      is the fold of exactly the accepted events attributed to that entry, for every interleaving of probe
      hits, cache evictions, reconfigurations, refreshes and scans (a full table aside). */
  lemma ExportedIsAccepted(su: Setup, table: nat, trace: seq<Event>, k: Key)
    requires table < TABLES && trace != [] && trace[|trace| - 1] == Look(k)
    requires forall i :: 0 <= i < |Collector.Sights(Shape(su), CollectorPart(su, table, trace), k)| ==>
               Collector.Sights(Shape(su), CollectorPart(su, table, trace), k)[i].allowed
    requires
      var t := Run(su, KernelPart(trace)).tables[table];
      k in t || |t| < su.capacity
    ensures GetOr0(Collector.BookAt(Shape(su), CollectorPart(su, table, trace)).exported, k)
         == Expected(su, KernelPart(trace), table, k)
  {
    var t := CollectorPart(su, table, trace);
    assert t[|t| - 1] == Collector.Look(k);
    Collector.ExportedOnceWhileAllowed(Shape(su), t, k);
    SameTable(su, table, trace);
    TotalsAreExact(su, KernelPart(trace), table, k);
  }

  /** The allow-list in force. */
  function AllowedNow(trace: seq<Event>): set<Cgid> {
    if trace == [] then {}
    else if trace[|trace| - 1].Refresh? then trace[|trace| - 1].allowed
    else AllowedNow(trace[..|trace| - 1])
  }

  /** Whether the table has a row for a key. */
  ghost predicate HasRow(su: Setup, trace: seq<Event>, table: nat, k: Key)
    requires table < TABLES
  {
    k in Run(su, KernelPart(trace)).tables[table]
  }

  /** What the scans of one row should have seen: whether its cgroup was allowed, and the fold of the events
      accepted for it by then. */
  ghost function Views(su: Setup, table: nat, trace: seq<Event>, k: Key): seq<Collector.Sight>
    requires table < TABLES
  {
    if trace == [] then []
    else
      var init := trace[..|trace| - 1];
      Views(su, table, init, k)
      + if trace[|trace| - 1] == Look(k) && HasRow(su, init, table, k) then
          [Collector.Sight(k.0 in AllowedNow(init), Expected(su, KernelPart(init), table, k))]
        else []
  }

  lemma SightsSnoc(cs: Collector.Setup, t: seq<Collector.Event>, e: Collector.Event, k: Key)
    ensures Collector.Sights(cs, t + [e], k)
         == Collector.Sights(cs, t, k)
            + if e == Collector.Look(k) && k in Collector.KernelAt(cs, t) then
                [Collector.Sight(k.0 in Collector.AllowedAt(t), Sum(Collector.KernelAt(cs, t)[k]))]
              else []
    ensures Collector.AllowedAt(t + [e]) == if e.Refresh? then e.allowed else Collector.AllowedAt(t)
  {
    assert (t + [e])[..|t|] == t;
  }

  /** The last event as the collector model sees it: at most one event. */
  lemma LastPart(su: Setup, table: nat, trace: seq<Event>) returns (part: Option<Collector.Event>)
    requires trace != []
    ensures CollectorPart(su, table, trace)
         == CollectorPart(su, table, trace[..|trace| - 1]) + match part case None => [] case Some(e) => [e]
    ensures match trace[|trace| - 1]
            case Kernel(_) => part.None? || part.value.Inc?
            case Refresh(a) => part == Some(Collector.Refresh(a))
            case Look(k) => part == Some(Collector.Look(k))
  {
    var init := trace[..|trace| - 1];
    match trace[|trace| - 1]
    case Refresh(a) => part := Some(Collector.Refresh(a));
    case Look(k) => part := Some(Collector.Look(k));
    case Kernel(e) =>
      if e.Fire? {
        var s := Run(su, KernelPart(init));
        part := IncOf(su, s, e.cpu, EffectOf(su.kind, s.cfg, e.task, e.probe), table);
      } else {
        part := None;
      }
  }

  /** The scans saw what they should have seen. */
  lemma {:induction false} ViewsAreSights(su: Setup, table: nat, trace: seq<Event>, k: Key)
    requires table < TABLES
    ensures Collector.AllowedAt(CollectorPart(su, table, trace)) == AllowedNow(trace)
    ensures Collector.Sights(Shape(su), CollectorPart(su, table, trace), k) == Views(su, table, trace, k)
  {
    if trace != [] {
      var init := trace[..|trace| - 1];
      var t := CollectorPart(su, table, init);
      ViewsAreSights(su, table, init, k);
      SameTable(su, table, init);
      TotalsAreExact(su, KernelPart(init), table, k);
      var part := LastPart(su, table, trace);
      if part.Some? {
        SightsSnoc(Shape(su), t, part.value, k);
      } else {
        assert t + [] == t;
      }
    }
  }

  /** End to end, in general: for every interleaving of probe hits, cache evictions, reconfigurations,
      refreshes and scans, the exported counter is the sum, over the maximal stretches of scans that found the
      row's cgroup allowed, of the fold of the accepted events by the end of each stretch. */
  lemma ExportedIsAcceptedByStretch(su: Setup, table: nat, trace: seq<Event>, k: Key)
    requires table < TABLES
    ensures GetOr0(Collector.BookAt(Shape(su), CollectorPart(su, table, trace)).exported, k)
         == Collector.StretchTotal(Views(su, table, trace, k))
  {
    ViewsAreSights(su, table, trace, k);
    Collector.ExportIsStretchTotal(Shape(su), CollectorPart(su, table, trace), k);
  }
}
