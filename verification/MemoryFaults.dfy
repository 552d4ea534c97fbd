/**
 The collector's memory-fault export: baselines per cgroup, pruned when a cgroup leaves the
 allow-list, and the growth of `memory.stat` readings added to the major and minor counters.
 */
module MemoryFaults {
  import opened Common
  import opened BpfCommon

  /** The readings of `memory.stat`; minor faults are what is left of all faults, never negative. */
  datatype Reading = Reading(pgfault: nat, pgmajfault: nat)

  datatype Counters = Counters(major: nat, minor: nat)

  function Split(r: Reading): Counters {
    Counters(r.pgmajfault, if r.pgfault >= r.pgmajfault then r.pgfault - r.pgmajfault else 0)
  }

  function Growth(prev: nat, now: nat): nat {
    if now >= prev then now - prev else 0
  }

  datatype Event = Refresh(allowed: set<Cgid>) | Target(cgid: Cgid) | Read(cgid: Cgid, r: Reading)

  datatype State = State(allowed: set<Cgid>, target: Cgid, last: map<Cgid, Counters>, major: map<Cgid, nat>, minor: map<Cgid, nat>)

  /** Dropping the baselines of cgroups no longer allowed. */
  function Pruned(last: map<Cgid, Counters>, allowed: set<Cgid>): map<Cgid, Counters> {
    last - (last.Keys - allowed)
  }

  /** One successful reading of an allowed cgroup other than the target itself. A failed read is no event. */
  function Observe(s: State, cgid: Cgid, r: Reading): State {
    var now := Split(r);
    if cgid !in s.last then s.(last := s.last[cgid := now])
    else
      var prev := s.last[cgid];
      s.(last := s.last[cgid := now],
         major := s.major[cgid := GetOr0(s.major, cgid) + Growth(prev.major, now.major)],
         minor := s.minor[cgid := GetOr0(s.minor, cgid) + Growth(prev.minor, now.minor)])
  }

  function Step(s: State, e: Event): State {
    match e
    case Refresh(allowed) => s.(allowed := allowed, last := Pruned(s.last, allowed))
    case Target(cgid) => s.(target := cgid)
    case Read(cgid, r) => if cgid in s.allowed && cgid != s.target then Observe(s, cgid, r) else s
  }

  function Run(target: Cgid, trace: seq<Event>): State {
    if trace == [] then State({}, target, map[], map[], map[])
    else Step(Run(target, trace[..|trace| - 1]), trace[|trace| - 1])
  }

  // ----- one cgroup's observations

  datatype Obs = Seen(r: Reading) | Dropped

  /** What happened to one cgroup: its readings, and the refreshes that found it gone. */
  ghost function History(target: Cgid, trace: seq<Event>, cgid: Cgid): seq<Obs> {
    if trace == [] then []
    else
      var init, e := trace[..|trace| - 1], trace[|trace| - 1];
      var h, s := History(target, init, cgid), Run(target, init);
      if e.Read? && e.cgid == cgid && cgid in s.allowed && cgid != s.target then h + [Seen(e.r)]
      else if e.Refresh? && cgid !in e.allowed then h + [Dropped]
      else h
  }

  ghost function FirstSeen(h: seq<Obs>): Option<Reading> {
    if h == [] then None
    else
      var f := FirstSeen(h[..|h| - 1]);
      if f.None? && h[|h| - 1].Seen? then Some(h[|h| - 1].r) else f
  }

  ghost function LastSeen(h: seq<Obs>): Option<Reading> {
    if h == [] then None
    else if h[|h| - 1].Seen? then Some(h[|h| - 1].r)
    else LastSeen(h[..|h| - 1])
  }

  /** The major count and the minor count left over never go down, across drops too. Readings that never go
      down are not enough: from ten faults to ten with five major, the minor count falls. */
  ghost predicate NonDecreasing(h: seq<Obs>) {
    if h == [] then true
    else
      var init, x := h[..|h| - 1], h[|h| - 1];
      && NonDecreasing(init)
      && (x.Seen? && LastSeen(init).Some? ==>
            && Split(x.r).major >= Split(LastSeen(init).value).major
            && Split(x.r).minor >= Split(LastSeen(init).value).minor)
  }

  /** The cgroup was dropped at some point after it was first seen. */
  ghost predicate DroppedSinceFirst(h: seq<Obs>) {
    h != [] && (DroppedSinceFirst(h[..|h| - 1]) || (h[|h| - 1].Dropped? && FirstSeen(h[..|h| - 1]).Some?))
  }

  ghost function Total(r: Reading): nat {
    Split(r).major + Split(r).minor
  }

  /** The growth between readings not separated by a drop. */
  ghost function Exported(h: seq<Obs>): nat {
    if h == [] then 0
    else
      var init, x := h[..|h| - 1], h[|h| - 1];
      Exported(init)
      + if x.Seen? && init != [] && init[|init| - 1].Seen? then
          Growth(Split(init[|init| - 1].r).major, Split(x.r).major)
          + Growth(Split(init[|init| - 1].r).minor, Split(x.r).minor)
        else 0
  }

  /** The growth of the major faults, and of the faults that are not major, between readings not separated by
      a drop. */
  ghost function MajorGrowth(h: seq<Obs>): nat {
    if h == [] then 0
    else
      var init, x := h[..|h| - 1], h[|h| - 1];
      MajorGrowth(init)
      + if x.Seen? && init != [] && init[|init| - 1].Seen? && x.r.pgmajfault > init[|init| - 1].r.pgmajfault then
          x.r.pgmajfault - init[|init| - 1].r.pgmajfault
        else 0
  }

  ghost function Others(r: Reading): nat {
    if r.pgmajfault <= r.pgfault then r.pgfault - r.pgmajfault else 0
  }

  ghost function OtherGrowth(h: seq<Obs>): nat {
    if h == [] then 0
    else
      var init, x := h[..|h| - 1], h[|h| - 1];
      OtherGrowth(init)
      + if x.Seen? && init != [] && init[|init| - 1].Seen? && Others(x.r) > Others(init[|init| - 1].r) then
          Others(x.r) - Others(init[|init| - 1].r)
        else 0
  }

  lemma HistorySnoc(h: seq<Obs>, x: Obs)
    ensures (h + [x])[..|h + [x]| - 1] == h
  {
  }

  /** The saved baseline is the last reading, unless the cgroup was dropped since. */
  lemma {:induction false} BaselineIsLastReading(target: Cgid, trace: seq<Event>, cgid: Cgid)
    ensures
      var h, last := History(target, trace, cgid), Run(target, trace).last;
      && (cgid in last <==> h != [] && h[|h| - 1].Seen?)
      && (cgid in last ==> last[cgid] == Split(h[|h| - 1].r))
  {
    if trace != [] {
      BaselineIsLastReading(target, trace[..|trace| - 1], cgid);
    }
  }

  lemma RunSnoc(target: Cgid, trace: seq<Event>, e: Event, cgid: Cgid)
    ensures Run(target, trace + [e]) == Step(Run(target, trace), e)
    ensures
      var s := Run(target, trace);
      History(target, trace + [e], cgid)
      == History(target, trace, cgid)
         + if e.Read? && e.cgid == cgid && cgid in s.allowed && cgid != s.target then [Seen(e.r)]
           else if e.Refresh? && cgid !in e.allowed then [Dropped] else []
  {
    assert (trace + [e])[..|trace|] == trace;
  }

  /** The saved baseline of a cgroup is the last of its observations. */
  ghost predicate BaselineOk(s: State, cgid: Cgid, h: seq<Obs>) {
    && (cgid in s.last <==> h != [] && h[|h| - 1].Seen?)
    && (cgid in s.last ==> s.last[cgid] == Split(h[|h| - 1].r))
  }

  lemma ObservedMajor(s: State, cgid: Cgid, r: Reading, h: seq<Obs>)
    requires BaselineOk(s, cgid, h)
    ensures GetOr0(Observe(s, cgid, r).major, cgid) - GetOr0(s.major, cgid) == MajorGrowth(h + [Seen(r)]) - MajorGrowth(h)
  {
    HistorySnoc(h, Seen(r));
  }

  lemma ObservedMinor(s: State, cgid: Cgid, r: Reading, h: seq<Obs>)
    requires BaselineOk(s, cgid, h)
    ensures GetOr0(Observe(s, cgid, r).minor, cgid) - GetOr0(s.minor, cgid) == OtherGrowth(h + [Seen(r)]) - OtherGrowth(h)
  {
    HistorySnoc(h, Seen(r));
  }

  lemma DroppedGrowths(h: seq<Obs>)
    ensures MajorGrowth(h + [Dropped]) == MajorGrowth(h) && OtherGrowth(h + [Dropped]) == OtherGrowth(h)
    ensures h + [] == h
  {
    HistorySnoc(h, Dropped);
  }

  /** What one event does to the two exported counters of a cgroup. */
  lemma CountersStep(s: State, e: Event, cgid: Cgid, h: seq<Obs>, h': seq<Obs>)
    requires BaselineOk(s, cgid, h)
    requires h' == h + if e.Read? && e.cgid == cgid && cgid in s.allowed && cgid != s.target then [Seen(e.r)]
                       else if e.Refresh? && cgid !in e.allowed then [Dropped] else []
    ensures GetOr0(Step(s, e).major, cgid) - GetOr0(s.major, cgid) == MajorGrowth(h') - MajorGrowth(h)
    ensures GetOr0(Step(s, e).minor, cgid) - GetOr0(s.minor, cgid) == OtherGrowth(h') - OtherGrowth(h)
  {
    DroppedGrowths(h);
    if e.Read? {
      ObservedMajor(s, cgid, e.r, h);
      ObservedMinor(s, cgid, e.r, h);
    }
  }

  /** Each of the two exported counters has its own growth: major faults the one, the others the other. */
  lemma {:induction false} EachCounterFollows(target: Cgid, trace: seq<Event>, cgid: Cgid)
    ensures GetOr0(Run(target, trace).major, cgid) == MajorGrowth(History(target, trace, cgid))
    ensures GetOr0(Run(target, trace).minor, cgid) == OtherGrowth(History(target, trace, cgid))
  {
    if trace != [] {
      var init, e := trace[..|trace| - 1], trace[|trace| - 1];
      EachCounterFollows(target, init, cgid);
      BaselineIsLastReading(target, init, cgid);
      assert trace == init + [e];
      RunSnoc(target, init, e, cgid);
      CountersStep(Run(target, init), e, cgid, History(target, init, cgid), History(target, trace, cgid));
    }
  }

  lemma {:induction false} GrowthsAddUp(h: seq<Obs>)
    ensures Exported(h) == MajorGrowth(h) + OtherGrowth(h)
  {
    if h != [] {
      GrowthsAddUp(h[..|h| - 1]);
    }
  }

  /** The exported major and minor counters together are the growth between readings that no drop separates. */
  lemma ExportFollowsHistory(target: Cgid, trace: seq<Event>, cgid: Cgid)
    ensures
      var s := Run(target, trace);
      GetOr0(s.major, cgid) + GetOr0(s.minor, cgid) == Exported(History(target, trace, cgid))
  {
    EachCounterFollows(target, trace, cgid);
    GrowthsAddUp(History(target, trace, cgid));
  }

  /** The growth a drop hides: what each reading that directly follows a drop adds to the last one before it. */
  ghost function Lost(h: seq<Obs>): int {
    if h == [] then 0
    else
      var init, x := h[..|h| - 1], h[|h| - 1];
      Lost(init)
      + if x.Seen? && init != [] && init[|init| - 1].Dropped? && LastSeen(init).Some? then
          Total(x.r) - Total(LastSeen(init).value)
        else 0
  }

  /** What falls between readings not separated by a drop, which the export takes for no growth. */
  ghost function Fallen(h: seq<Obs>): nat {
    if h == [] then 0
    else
      var init, x := h[..|h| - 1], h[|h| - 1];
      Fallen(init)
      + if x.Seen? && init != [] && init[|init| - 1].Seen? then
          Growth(Split(x.r).major, Split(init[|init| - 1].r).major)
          + Growth(Split(x.r).minor, Split(init[|init| - 1].r).minor)
        else 0
  }

  /** What is exported and what drops hide are together the growth of the counters and what they fell. */
  lemma {:induction false} ExportedAndLostAreGrowth(h: seq<Obs>)
    ensures FirstSeen(h).Some? <==> LastSeen(h).Some?
    ensures FirstSeen(h).None? ==> Exported(h) == Lost(h) == Fallen(h) == 0 && !DroppedSinceFirst(h)
    ensures FirstSeen(h).Some? ==>
              && Exported(h) + Lost(h) == Total(LastSeen(h).value) - Total(FirstSeen(h).value) + Fallen(h)
              && (!DroppedSinceFirst(h) ==> h[|h| - 1].Seen? && Lost(h) == 0)
  {
    if h != [] {
      ExportedAndLostAreGrowth(h[..|h| - 1]);
    }
  }

  lemma {:induction false} NothingFalls(h: seq<Obs>)
    requires NonDecreasing(h)
    ensures Fallen(h) == 0 && 0 <= Lost(h)
  {
    if h != [] {
      NothingFalls(h[..|h| - 1]);
    }
  }

  /** For any readings whatever, exported faults are the growth of the fault count since the cgroup was first
      observed, plus what the counters fell on the way, less what drops hid. When the counters never fall that
      is never more than the growth, and all of it if the cgroup was never dropped in between. Major faults
      are part of all faults; where a reading says otherwise, the larger of the two stands for the fault
      count. */
  lemma FaultExportNeverOverReports(target: Cgid, trace: seq<Event>, cgid: Cgid)
    ensures
      var s, h := Run(target, trace), History(target, trace, cgid);
      var sum := GetOr0(s.major, cgid) + GetOr0(s.minor, cgid);
      && (FirstSeen(h).Some? <==> LastSeen(h).Some?)
      && (FirstSeen(h).None? ==> sum == 0)
      && (FirstSeen(h).Some? ==>
            var growth := FaultCount(LastSeen(h).value) - FaultCount(FirstSeen(h).value);
            && sum == growth + Fallen(h) - Lost(h)
            && (!DroppedSinceFirst(h) ==> sum == growth + Fallen(h))
            && (NonDecreasing(h) ==> sum <= growth && (!DroppedSinceFirst(h) ==> sum == growth)))
  {
    var h := History(target, trace, cgid);
    ExportFollowsHistory(target, trace, cgid);
    ExportedAndLostAreGrowth(h);
    if NonDecreasing(h) {
      NothingFalls(h);
    }
  }

  function FaultCount(r: Reading): nat {
    if r.pgfault >= r.pgmajfault then r.pgfault else r.pgmajfault
  }

  /** By how much a reading claims more major faults than faults. */
  function Excess(r: Reading): nat {
    if r.pgmajfault > r.pgfault then r.pgmajfault - r.pgfault else 0
  }

  /** Against `pgfault` itself, for any readings, failures, drops and re-additions: the export differs from its
      growth by the growth of the excess of major faults, plus what the counters fell, less what drops hid,
      and over-reports exactly when the first two are more than the third. While the counters never fall, it
      does not if the last reading has no excess. */
  lemma OverReportedExactlyByExcess(target: Cgid, trace: seq<Event>, cgid: Cgid)
    requires FirstSeen(History(target, trace, cgid)).Some?
    ensures
      var s, h := Run(target, trace), History(target, trace, cgid);
      && LastSeen(h).Some?
      && var first, last := FirstSeen(h).value, LastSeen(h).value;
         var sum, growth := GetOr0(s.major, cgid) + GetOr0(s.minor, cgid), last.pgfault - first.pgfault;
         && sum == growth + (Excess(last) - Excess(first)) + Fallen(h) - Lost(h)
         && (sum <= growth <==> Excess(last) - Excess(first) + Fallen(h) <= Lost(h))
         && (NonDecreasing(h) && Excess(last) == 0 ==> sum <= growth)
  {
    FaultExportNeverOverReports(target, trace, cgid);
    if NonDecreasing(History(target, trace, cgid)) {
      NothingFalls(History(target, trace, cgid));
    }
  }

  /** Why the fault count is not simply `pgfault`: readings with more major faults than faults, both
      non-decreasing, export major faults that `pgfault` never showed. */
  lemma MajorAboveAllOverReports()
    ensures
      var trace := [Refresh({7}), Read(7, Reading(0, 0)), Read(7, Reading(0, 5))];
      && NonDecreasing(History(1, trace, 7))
      && GetOr0(Run(1, trace).major, 7) == 5
  {
    TwoReadings(Reading(0, 0), Reading(0, 5));
  }

  /** And why what falls enters it: `pgfault` stands still and no reading has an excess, but five of the ten
      faults turn out major, the minor count falls by five, and five are exported. */
  lemma FallingMinorOverReports()
    ensures
      var trace := [Refresh({7}), Read(7, Reading(10, 0)), Read(7, Reading(10, 5))];
      && GetOr0(Run(1, trace).major, 7) == 5 && GetOr0(Run(1, trace).minor, 7) == 0
      && Fallen(History(1, trace, 7)) == 5
  {
    TwoReadings(Reading(10, 0), Reading(10, 5));
  }

  lemma TwoReadings(a: Reading, b: Reading)
    ensures
      var s, h := Run(1, [Refresh({7}), Read(7, a), Read(7, b)]), History(1, [Refresh({7}), Read(7, a), Read(7, b)], 7);
      && GetOr0(s.major, 7) == Growth(Split(a).major, Split(b).major)
      && GetOr0(s.minor, 7) == Growth(Split(a).minor, Split(b).minor)
      && Fallen(h) == Growth(Split(b).major, Split(a).major) + Growth(Split(b).minor, Split(a).minor)
      && (NonDecreasing(h) <==> Split(a).major <= Split(b).major && Split(a).minor <= Split(b).minor)
  {
    var t1: seq<Event> := [Refresh({7})];
    var t2 := t1 + [Read(7, a)];
    RunSnoc(1, [], Refresh({7}), 7);
    RunSnoc(1, t1, Read(7, a), 7);
    RunSnoc(1, t2, Read(7, b), 7);
    assert [] + [Refresh({7})] == t1;
    assert Run(1, t2) == State({7}, 1, map[7 := Split(a)], map[], map[]);
    assert t2 + [Read(7, b)] == [Refresh({7}), Read(7, a), Read(7, b)];
    assert History(1, t2 + [Read(7, b)], 7) == [Seen(a), Seen(b)];
    FallenBetween(a, b);
  }

  lemma FallenBetween(a: Reading, b: Reading)
    ensures
      var h := [Seen(a), Seen(b)];
      && Fallen(h) == Growth(Split(b).major, Split(a).major) + Growth(Split(b).minor, Split(a).minor)
      && (NonDecreasing(h) <==> Split(a).major <= Split(b).major && Split(a).minor <= Split(b).minor)
  {
    FallenSnoc([], Seen(a));
    FallenSnoc([Seen(a)], Seen(b));
    LostSnoc([], Seen(a));
    assert [] + [Seen(a)] == [Seen(a)] && [Seen(a)] + [Seen(b)] == [Seen(a), Seen(b)];
  }

  lemma FallenSnoc(h: seq<Obs>, x: Obs)
    ensures Fallen(h + [x])
         == Fallen(h) + if x.Seen? && h != [] && h[|h| - 1].Seen?
                        then Growth(Split(x.r).major, Split(h[|h| - 1].r).major)
                             + Growth(Split(x.r).minor, Split(h[|h| - 1].r).minor)
                        else 0
    ensures NonDecreasing(h + [x])
            <==> NonDecreasing(h)
                 && (x.Seen? && LastSeen(h).Some? ==>
                       && Split(x.r).major >= Split(LastSeen(h).value).major
                       && Split(x.r).minor >= Split(LastSeen(h).value).minor)
  {
    HistorySnoc(h, x);
  }

  /** And why drops enter the condition: whatever grows between two readings with a drop in between, excess
      included, is not exported. */
  lemma DropHidesGrowth(a: Reading, b: Reading)
    ensures
      var trace := [Refresh({7}), Read(7, a), Refresh({1}), Refresh({7}), Read(7, b)];
      && GetOr0(Run(1, trace).major, 7) == GetOr0(Run(1, trace).minor, 7) == 0
      && Lost(History(1, trace, 7)) == Total(b) - Total(a)
  {
    var t1: seq<Event> := [Refresh({7})];
    var t2 := t1 + [Read(7, a)];
    var t3 := t2 + [Refresh({1})];
    var t4 := t3 + [Refresh({7})];
    RunSnoc(1, [], Refresh({7}), 7);
    RunSnoc(1, t1, Read(7, a), 7);
    RunSnoc(1, t2, Refresh({1}), 7);
    RunSnoc(1, t3, Refresh({7}), 7);
    RunSnoc(1, t4, Read(7, b), 7);
    assert [] + [Refresh({7})] == t1;
    assert Run(1, t2) == State({7}, 1, map[7 := Split(a)], map[], map[]);
    assert Run(1, t3) == State({1}, 1, map[], map[], map[]);
    assert Run(1, t4) == State({7}, 1, map[], map[], map[]);
    var all := [Refresh({7}), Read(7, a), Refresh({1}), Refresh({7}), Read(7, b)];
    assert t4 + [Read(7, b)] == all;
    assert History(1, all, 7) == [Seen(a), Dropped, Seen(b)];
    LostBetween(a, b);
  }

  lemma LostSnoc(h: seq<Obs>, x: Obs)
    ensures Lost(h + [x])
         == Lost(h) + if x.Seen? && h != [] && h[|h| - 1].Dropped? && LastSeen(h).Some?
                      then Total(x.r) - Total(LastSeen(h).value) else 0
    ensures LastSeen(h + [x]) == if x.Seen? then Some(x.r) else LastSeen(h)
  {
    HistorySnoc(h, x);
  }

  lemma LostBetween(a: Reading, b: Reading)
    ensures Lost([Seen(a), Dropped, Seen(b)]) == Total(b) - Total(a)
  {
    var h1, h2 := [Seen(a)], [Seen(a), Dropped];
    LostSnoc([], Seen(a));
    LostSnoc(h1, Dropped);
    LostSnoc(h2, Seen(b));
    assert [] + [Seen(a)] == h1 && h1 + [Dropped] == h2 && h2 + [Seen(b)] == [Seen(a), Dropped, Seen(b)];
  }

  /** Saved baselines only ever belong to cgroups of the current allow-list. */
  lemma {:induction false} BaselinesAreAllowed(target: Cgid, trace: seq<Event>)
    ensures Run(target, trace).last.Keys <= Run(target, trace).allowed
  {
    if trace != [] {
      BaselinesAreAllowed(target, trace[..|trace| - 1]);
    }
  }

  // ----- the update loops as written

  class FaultCollector {
    var allowed: map<Cgid, string>
    var target: Cgid
    var last: map<Cgid, Counters>
    var major: map<Cgid, nat>
    var minor: map<Cgid, nat>

    ghost function View(): State
      reads this
    {
      State(allowed.Keys, target, last, major, minor)
    }

    constructor (target: Cgid)
      ensures View() == Run(target, [])
    {
      this.target := target;
      allowed, last, major, minor := map[], map[], map[], map[];
    }

    method PruneState(kept: map<Cgid, string>)
      modifies this`last
      ensures last == Pruned(old(last), kept.Keys)
    {
      var todo := last.Keys;
      while todo != {}
        invariant todo <= old(last).Keys
        invariant last == old(last) - ((old(last).Keys - todo) - kept.Keys)
        decreases todo
      {
        var cgid :| cgid in todo;
        if cgid !in kept {
          last := last - {cgid};
        }
        todo := todo - {cgid};
      }
    }

    /** Takes what the directory walk found; an empty result falls back to the target alone. */
    method RefreshAllowed(found: map<Cgid, string>, targetPath: string)
      modifies this
      ensures allowed == if |found| == 0 then map[target := targetPath] else found
      ensures View() == Step(old(View()), Refresh(allowed.Keys))
    {
      var kept: map<Cgid, string> := found;
      if |found| == 0 {
        kept := kept[target := targetPath];
      }
      allowed := kept;
      PruneState(kept);
    }

    /** Reads every allowed cgroup but the target; a missing reading is a failed read. The cgroups are
        visited in some order, each once. */
    method UpdateMemory(readings: map<Cgid, Reading>) returns (ghost order: seq<Cgid>)
      modifies this
      ensures View() == ObserveAll(old(View()), readings, order)
      ensures forall cgid :: cgid in order <==> cgid in allowed.Keys && cgid != target && cgid in readings
      ensures forall i, j :: 0 <= i < j < |order| ==> order[i] != order[j]
    {
      var todo := allowed.Keys;
      order := [];
      while todo != {}
        invariant allowed == old(allowed) && target == old(target) && todo <= allowed.Keys
        invariant forall cgid :: cgid in order <==> cgid in allowed.Keys - todo && cgid != target && cgid in readings
        invariant forall i, j :: 0 <= i < j < |order| ==> order[i] != order[j]
        invariant View() == ObserveAll(old(View()), readings, order)
        decreases todo
      {
        var cgid :| cgid in todo;
        todo := todo - {cgid};
        if cgid != target && cgid in readings {
          ghost var before := order;
          order := order + [cgid];
          assert order[..|before|] == before;
          UpdateOne(cgid, readings[cgid]);
        }
      }
    }

    method UpdateOne(cgid: Cgid, r: Reading)
      modifies this`last, this`major, this`minor
      ensures View() == Observe(old(View()), cgid, r)
    {
      var pgminor := 0;
      if r.pgfault >= r.pgmajfault {
        pgminor := r.pgfault - r.pgmajfault;
      }
      if cgid in last {
        var prev := last[cgid];
        var d := if r.pgmajfault >= prev.major then r.pgmajfault - prev.major else 0;
        major := major[cgid := (if cgid in major then major[cgid] else 0) + d];
        d := if pgminor >= prev.minor then pgminor - prev.minor else 0;
        minor := minor[cgid := (if cgid in minor then minor[cgid] else 0) + d];
      }
      last := last[cgid := Counters(r.pgmajfault, pgminor)];
    }
  }

  /** Readings observed one after another. */
  function ObserveAll(s: State, readings: map<Cgid, Reading>, order: seq<Cgid>): State {
    if order == [] then s
    else
      var n := |order| - 1;
      if order[n] in readings then Observe(ObserveAll(s, readings, order[..n]), order[n], readings[order[n]])
      else ObserveAll(s, readings, order[..n])
  }

  /** The same readings as events of the machine. */
  function ReadEvents(readings: map<Cgid, Reading>, order: seq<Cgid>): seq<Event> {
    if order == [] then []
    else
      var n := |order| - 1;
      ReadEvents(readings, order[..n]) + if order[n] in readings then [Read(order[n], readings[order[n]])] else []
  }

  /** An update over allowed cgroups is a run of reading events: whatever led up to it, what it leaves is
      what the machine is in after them. */
  lemma {:induction false} UpdateIsRun(target: Cgid, trace: seq<Event>, readings: map<Cgid, Reading>, order: seq<Cgid>)
    requires
      var s := Run(target, trace);
      forall cgid :: cgid in order ==> cgid in s.allowed && cgid != s.target
    ensures ObserveAll(Run(target, trace), readings, order) == Run(target, trace + ReadEvents(readings, order))
  {
    if order == [] {
      assert trace + [] == trace;
    } else {
      var n := |order| - 1;
      assert order[n] in order;
      forall cgid | cgid in order[..n]
        ensures cgid in order
      {
      }
      UpdateIsRun(target, trace, readings, order[..n]);
      ObserveAllKeeps(Run(target, trace), readings, order[..n]);
      if order[n] in readings {
        var before, e := trace + ReadEvents(readings, order[..n]), Read(order[n], readings[order[n]]);
        assert trace + ReadEvents(readings, order) == before + [e];
        RunSnoc(target, before, e, e.cgid);
      } else {
        assert ReadEvents(readings, order) == ReadEvents(readings, order[..n]);
      }
    }
  }

  lemma {:induction false} ObserveAllKeeps(s: State, readings: map<Cgid, Reading>, order: seq<Cgid>)
    ensures ObserveAll(s, readings, order).allowed == s.allowed && ObserveAll(s, readings, order).target == s.target
  {
    if order != [] {
      ObserveAllKeeps(s, readings, order[..|order| - 1]);
    }
  }
}
