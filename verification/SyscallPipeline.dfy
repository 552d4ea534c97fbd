/**
 The syscall programs and the collector together: entries, exits, evictions and configuration writes
 interleaved with allow-list refreshes and scan rows, for the table of counts and the table of latencies.
 */
module SyscallPipeline {
  import opened Common
  import opened BpfCommon
  import opened Syscalls
  import Collector

  datatype Event = Kernel(e: Syscalls.Event) | Refresh(allowed: set<Cgid>) | Look(k: Key)

  datatype Which = Counts | Latencies

  /** What the kernel side saw of a run. */
  function KernelPart(trace: seq<Event>): seq<Syscalls.Event> {
    if trace == [] then []
    else KernelPart(trace[..|trace| - 1]) + if trace[|trace| - 1].Kernel? then [trace[|trace| - 1].e] else []
  }

  function TableOf(s: State, which: Which): map<Key, seq<nat>> {
    if which.Counts? then s.cnt else s.lat
  }

  /** The increment an exit makes to one table, if it makes one. */
  function IncOf(su: Setup, s: State, e: Syscalls.Event, which: Which): Option<Collector.Event> {
    if !e.Exit? || (e.tid, e.sys) !in s.start || e.cpu >= su.ncpu then None
    else
      var sv := s.start[(e.tid, e.sys)];
      Some(Collector.Inc((sv.cgid, e.sys), e.cpu, if which.Counts? then 1 else Duration(e.ts, sv.ts)))
  }

  function AsSeq(part: Option<Collector.Event>): seq<Collector.Event> {
    match part
    case None => []
    case Some(e) => [e]
  }

  /** The last event as the collector sees it. */
  function LastPart(su: Setup, which: Which, init: seq<Event>, e: Event): Option<Collector.Event> {
    match e
    case Kernel(ke) => IncOf(su, Run(su, KernelPart(init)), ke, which)
    case Refresh(a) => Some(Collector.Refresh(a))
    case Look(k) => Some(Collector.Look(k))
  }

  /** The run as the collector model sees it: increments of one table, refreshes and rows. */
  function CollectorPart(su: Setup, which: Which, trace: seq<Event>): seq<Collector.Event> {
    if trace == [] then []
    else
      var init := trace[..|trace| - 1];
      CollectorPart(su, which, init) + AsSeq(LastPart(su, which, init, trace[|trace| - 1]))
  }

  function Shape(su: Setup): Collector.Setup {
    Collector.Setup(su.ncpu, su.capacity)
  }

  lemma ExitIsInc(su: Setup, s: State, e: Syscalls.Event, which: Which)
    requires Shaped(su, s) && e.Exit? && IncOf(su, s, e, which).Some?
    ensures
      var inc := IncOf(su, s, e, which).value;
      && inc.Inc? && inc.cpu < su.ncpu
      && TableOf(Step(su, s, e), which) == Added(TableOf(s, which), su.capacity, su.ncpu, inc.k, inc.cpu, inc.delta)
  {
    var key := (s.start[(e.tid, e.sys)].cgid, e.sys);
    var s' := Step(su, s, e);
    assert s'.cnt == Added(s.cnt, su.capacity, su.ncpu, key, e.cpu, 1);
    assert s'.lat == Added(s.lat, su.capacity, su.ncpu, key, e.cpu, Duration(e.ts, s.start[(e.tid, e.sys)].ts));
  }

  lemma StepIsInc(su: Setup, s: State, e: Syscalls.Event, which: Which)
    requires Shaped(su, s)
    ensures match IncOf(su, s, e, which)
            case None => TableOf(Step(su, s, e), which) == TableOf(s, which)
            case Some(inc) =>
              && inc.Inc? && inc.cpu < su.ncpu
              && TableOf(Step(su, s, e), which)
                 == Added(TableOf(s, which), su.capacity, su.ncpu, inc.k, inc.cpu, inc.delta)
  {
    if IncOf(su, s, e, which).Some? {
      ExitIsInc(su, s, e, which);
    }
  }

  /** What one more event does to the collector's view. */
  lemma CollectorSnoc(cs: Collector.Setup, t: seq<Collector.Event>, part: Option<Collector.Event>, k: Key)
    ensures Collector.KernelAt(cs, t + AsSeq(part))
         == if part.Some? && part.value.Inc? && part.value.cpu < cs.ncpu
            then Added(Collector.KernelAt(cs, t), cs.capacity, cs.ncpu, part.value.k, part.value.cpu, part.value.delta)
            else Collector.KernelAt(cs, t)
    ensures Collector.AllowedAt(t + AsSeq(part))
         == if part.Some? && part.value.Refresh? then part.value.allowed else Collector.AllowedAt(t)
    ensures Collector.Sights(cs, t + AsSeq(part), k)
         == Collector.Sights(cs, t, k)
            + if part == Some(Collector.Look(k)) && k in Collector.KernelAt(cs, t) then
                [Collector.Sight(k.0 in Collector.AllowedAt(t), Sum(Collector.KernelAt(cs, t)[k]))]
              else []
  {
    match part
    case None => assert t + [] == t;
    case Some(e) => assert (t + [e])[..|t|] == t;
  }

  /** The table the collector scans is the table the programs filled. */
  lemma {:induction false} SameTable(su: Setup, which: Which, trace: seq<Event>, k: Key)
    ensures Collector.KernelAt(Shape(su), CollectorPart(su, which, trace)) == TableOf(Run(su, KernelPart(trace)), which)
  {
    if trace != [] {
      var init, e := trace[..|trace| - 1], trace[|trace| - 1];
      SameTable(su, which, init, k);
      CollectorSnoc(Shape(su), CollectorPart(su, which, init), LastPart(su, which, init, e), k);
      if e.Kernel? {
        assert (KernelPart(init) + [e.e])[..|KernelPart(init)|] == KernelPart(init);
        StepIsInc(su, Run(su, KernelPart(init)), e.e, which);
      } else {
        assert KernelPart(trace) == KernelPart(init);
      }
    }
  }

  /** The allow-list in force. */
  function AllowedNow(trace: seq<Event>): set<Cgid> {
    if trace == [] then {}
    else if trace[|trace| - 1].Refresh? then trace[|trace| - 1].allowed
    else AllowedNow(trace[..|trace| - 1])
  }

  /** What the recorded completed calls of a cgroup and syscall amount to. Their total duration is never
      negative on a trace a machine can produce. */
  ghost function Recorded(su: Setup, which: Which, trace: seq<Syscalls.Event>, k: Key): nat {
    if which.Counts? then RecordedCalls(su, trace, k)
    else if RecordedNs(su, trace, k) < 0 then 0
    else RecordedNs(su, trace, k)
  }

  lemma RecordedIsStored(su: Setup, which: Which, trace: seq<Syscalls.Event>, k: Key)
    requires WellFormed(su, trace)
    ensures which.Latencies? ==> Recorded(su, which, trace, k) == RecordedNs(su, trace, k)
    ensures Accounts(TableOf(Run(su, trace), which), su.capacity, k, Recorded(su, which, trace, k))
  {
    SyscallAccountingIsExact(su, trace, k);
  }

  /** What the scans of one row should have seen: whether its cgroup was allowed, and what the calls recorded
      by then amount to. */
  ghost function Views(su: Setup, which: Which, trace: seq<Event>, k: Key): seq<Collector.Sight> {
    if trace == [] then []
    else
      var init := trace[..|trace| - 1];
      Views(su, which, init, k)
      + if trace[|trace| - 1] == Look(k) && k in TableOf(Run(su, KernelPart(init)), which) then
          [Collector.Sight(k.0 in AllowedNow(init), Recorded(su, which, KernelPart(init), k))]
        else []
  }

  lemma WellFormedBefore(su: Setup, trace: seq<Event>)
    requires trace != [] && WellFormed(su, KernelPart(trace))
    ensures WellFormed(su, KernelPart(trace[..|trace| - 1]))
  {
    var k := KernelPart(trace[..|trace| - 1]);
    if trace[|trace| - 1].Kernel? {
      assert (k + [trace[|trace| - 1].e])[..|k|] == k;
    } else {
      assert KernelPart(trace) == k;
    }
  }

  /** The scans saw what they should have seen. */
  lemma {:induction false} ViewsAreSights(su: Setup, which: Which, trace: seq<Event>, k: Key)
    requires WellFormed(su, KernelPart(trace))
    ensures Collector.AllowedAt(CollectorPart(su, which, trace)) == AllowedNow(trace)
    ensures Collector.Sights(Shape(su), CollectorPart(su, which, trace), k) == Views(su, which, trace, k)
  {
    if trace != [] {
      var init := trace[..|trace| - 1];
      WellFormedBefore(su, trace);
      ViewsAreSights(su, which, init, k);
      SameTable(su, which, init, k);
      RecordedIsStored(su, which, KernelPart(init), k);
      CollectorSnoc(Shape(su), CollectorPart(su, which, init), LastPart(su, which, init, trace[|trace| - 1]), k);
    }
  }

  /** End to end: for every interleaving of calls, evictions, reconfigurations, refreshes and scans, the
      exported counts and latencies are the sum, over the maximal stretches of scans that found the row's
      cgroup allowed, of the number and total duration of the calls recorded by the end of each stretch. */
  lemma ExportedIsRecordedByStretch(su: Setup, which: Which, trace: seq<Event>, k: Key)
    requires WellFormed(su, KernelPart(trace))
    ensures GetOr0(Collector.BookAt(Shape(su), CollectorPart(su, which, trace)).exported, k)
         == Collector.StretchTotal(Views(su, which, trace, k))
  {
    ViewsAreSights(su, which, trace, k);
    Collector.ExportIsStretchTotal(Shape(su), CollectorPart(su, which, trace), k);
  }
}
