/**
 The collector's differencing of kernel totals into exported counters: what a scan does to one map's
 `last` values and exported counters, and what any interleaving of kernel increments, allow-list
 refreshes and scans exports. Exported counters are naturals, not floats.
 */
module Collector {
  import opened Common
  import opened BpfCommon

  type Key = (Cgid, nat)

  /** The collector's state for one BPF map: the last totals seen and the counters exported. */
  datatype Book = Book(last: map<Key, nat>, exported: map<Key, nat>)

  /** One row of a scan: a key outside the allow-list loses its last total, one inside exports the growth. */
  function Visit(b: Book, allowed: bool, k: Key, total: nat): Book {
    if !allowed then b.(last := b.last - {k})
    else
      var prev := GetOr0(b.last, k);
      Book(b.last[k := total],
           if total > prev then b.exported[k := GetOr0(b.exported, k) + (total - prev)] else b.exported)
  }

  function VisitAll(b: Book, allowed: set<Cgid>, rows: seq<(Key, seq<nat>)>): Book {
    if rows == [] then b
    else
      var n := |rows| - 1;
      Visit(VisitAll(b, allowed, rows[..n]), rows[n].0.0 in allowed, rows[n].0, Sum(rows[n].1))
  }

  lemma VisitOneMore(b: Book, allowed: set<Cgid>, rows: seq<(Key, seq<nat>)>, k: Key, slots: seq<nat>)
    ensures VisitAll(b, allowed, rows + [(k, slots)]) == Visit(VisitAll(b, allowed, rows), k.0 in allowed, k, Sum(slots))
  {
    var all := rows + [(k, slots)];
    assert all[..|all| - 1] == rows;
  }

  // ----- what holds for any totals at all

  /** Exported counters never decrease and are at least the last total seen, even if totals go down. */
  lemma VisitNeverDecreases(b: Book, allowed: bool, k: Key, total: nat, j: Key)
    requires GetOr0(b.exported, j) >= GetOr0(b.last, j)
    ensures GetOr0(Visit(b, allowed, k, total).exported, j) >= GetOr0(b.exported, j)
    ensures GetOr0(Visit(b, allowed, k, total).exported, j) >= GetOr0(Visit(b, allowed, k, total).last, j)
  {
  }

  lemma {:induction false} ScanNeverDecreases(b: Book, allowed: set<Cgid>, rows: seq<(Key, seq<nat>)>, j: Key)
    requires GetOr0(b.exported, j) >= GetOr0(b.last, j)
    ensures GetOr0(VisitAll(b, allowed, rows).exported, j) >= GetOr0(b.exported, j)
    ensures GetOr0(VisitAll(b, allowed, rows).exported, j) >= GetOr0(VisitAll(b, allowed, rows).last, j)
  {
    if rows != [] {
      var n := |rows| - 1;
      ScanNeverDecreases(b, allowed, rows[..n], j);
      VisitNeverDecreases(VisitAll(b, allowed, rows[..n]), rows[n].0.0 in allowed, rows[n].0, Sum(rows[n].1), j);
    }
  }

  // ----- the interleaved system

  /** A kernel increment on a CPU, an allow-list refresh, or the scan reaching the row of a key. */
  datatype Event = Inc(k: Key, cpu: nat, delta: nat) | Refresh(allowed: set<Cgid>) | Look(k: Key)

  datatype Setup = Setup(ncpu: nat, capacity: nat)

  /** The kernel's map after the increments of a trace. */
  function KernelAt(su: Setup, trace: seq<Event>): (m: map<Key, seq<nat>>)
    ensures SlotsOk(m, su.ncpu)
  {
    if trace == [] then map[]
    else
      var m, e := KernelAt(su, trace[..|trace| - 1]), trace[|trace| - 1];
      if e.Inc? && e.cpu < su.ncpu then Added(m, su.capacity, su.ncpu, e.k, e.cpu, e.delta) else m
  }

  function AllowedAt(trace: seq<Event>): set<Cgid> {
    if trace == [] then {}
    else if trace[|trace| - 1].Refresh? then trace[|trace| - 1].allowed
    else AllowedAt(trace[..|trace| - 1])
  }

  /** The collector's book after a trace. Only rows that exist are visited. */
  function BookAt(su: Setup, trace: seq<Event>): Book {
    if trace == [] then Book(map[], map[])
    else
      var init, e := trace[..|trace| - 1], trace[|trace| - 1];
      if e.Look? && e.k in KernelAt(su, init) then
        Visit(BookAt(su, init), e.k.0 in AllowedAt(init), e.k, Sum(KernelAt(su, init)[e.k]))
      else BookAt(su, init)
  }

  // ----- stretches of visits during which a key is allowed

  datatype Sight = Sight(allowed: bool, total: nat)

  /** What the scans saw of one key, in order. */
  function Sights(su: Setup, trace: seq<Event>, k: Key): seq<Sight> {
    if trace == [] then []
    else
      var init, e := trace[..|trace| - 1], trace[|trace| - 1];
      if e == Look(k) && k in KernelAt(su, init) then
        Sights(su, init, k) + [Sight(k.0 in AllowedAt(init), Sum(KernelAt(su, init)[k]))]
      else Sights(su, init, k)
  }

  /** Position i ends a maximal stretch of allowed sights. */
  predicate EndsStretch(h: seq<Sight>, i: nat)
    requires i < |h|
  {
    h[i].allowed && (i + 1 == |h| || !h[i + 1].allowed)
  }

  function SumEnds(h: seq<Sight>, n: nat): nat
    requires n <= |h|
  {
    if n == 0 then 0 else SumEnds(h, n - 1) + if EndsStretch(h, n - 1) then h[n - 1].total else 0
  }

  /** The sum, over maximal allowed stretches, of the total at the end of each. */
  function StretchTotal(h: seq<Sight>): nat {
    SumEnds(h, |h|)
  }

  lemma {:induction false} SumEndsPrefix(h: seq<Sight>, x: Sight, n: nat)
    requires n < |h|
    ensures SumEnds(h + [x], n) == SumEnds(h, n)
  {
    if n > 0 {
      SumEndsPrefix(h, x, n - 1);
      assert (h + [x])[n - 1] == h[n - 1] && (h + [x])[n] == h[n];
    }
  }

  /** Seeing a key once more: an allowed sight extends the open stretch or starts one. */
  lemma StretchSnoc(h: seq<Sight>, x: Sight)
    ensures StretchTotal(h + [x])
         == StretchTotal(h)
            - (if h != [] && h[|h| - 1].allowed && x.allowed then h[|h| - 1].total else 0)
            + if x.allowed then x.total else 0
  {
    var g := h + [x];
    assert g[|h|] == x;
    assert StretchTotal(g) == SumEnds(g, |h|) + if x.allowed then x.total else 0;
    if h != [] {
      var n := |h| - 1;
      SumEndsPrefix(h, x, n);
      assert g[n] == h[n];
      assert EndsStretch(g, n) <==> h[n].allowed && !x.allowed;
      assert SumEnds(g, n + 1) == SumEnds(g, n) + if EndsStretch(g, n) then g[n].total else 0;
    }
  }

  // ----- kernel totals only grow

  ghost function TotalAt(su: Setup, trace: seq<Event>, k: Key): nat {
    if k in KernelAt(su, trace) then Sum(KernelAt(su, trace)[k]) else 0
  }

  lemma {:induction false} KernelGrows(su: Setup, trace: seq<Event>, k: Key)
    requires trace != []
    ensures TotalAt(su, trace[..|trace| - 1], k) <= TotalAt(su, trace, k)
  {
    var m, e := KernelAt(su, trace[..|trace| - 1]), trace[|trace| - 1];
    if e.Inc? && e.cpu < su.ncpu && k in m {
      AddedAccounts(m, su.capacity, su.ncpu, e.k, e.cpu, e.delta, k, Sum(m[k]));
    }
  }

  /** The last sight of a key is no larger than its kernel total now. */
  lemma {:induction false} LastSightBelow(su: Setup, trace: seq<Event>, k: Key)
    ensures Sights(su, trace, k) != [] ==> Sights(su, trace, k)[|Sights(su, trace, k)| - 1].total <= TotalAt(su, trace, k)
  {
    if trace != [] {
      LastSightBelow(su, trace[..|trace| - 1], k);
      KernelGrows(su, trace, k);
    }
  }

  /** For every interleaving of increments, refreshes and scans, the exported counter of a key is the
      sum, over the maximal stretches of scans that found it allowed, of the kernel total at the end of
      each stretch. */
  lemma {:induction false} ExportIsStretchTotal(su: Setup, trace: seq<Event>, k: Key)
    ensures
      var b, h := BookAt(su, trace), Sights(su, trace, k);
      && GetOr0(b.exported, k) == StretchTotal(h)
      && (k in b.last <==> h != [] && h[|h| - 1].allowed)
      && (k in b.last ==> b.last[k] == h[|h| - 1].total)
  {
    if trace != [] {
      var init, e := trace[..|trace| - 1], trace[|trace| - 1];
      ExportIsStretchTotal(su, init, k);
      if e == Look(k) && k in KernelAt(su, init) {
        LastSightBelow(su, init, k);
        StretchSnoc(Sights(su, init, k), Sight(k.0 in AllowedAt(init), Sum(KernelAt(su, init)[k])));
      }
    }
  }

  lemma {:induction false} AllAllowedTotal(h: seq<Sight>)
    requires forall i :: 0 <= i < |h| ==> h[i].allowed
    ensures StretchTotal(h) == if h == [] then 0 else h[|h| - 1].total
  {
    if h != [] {
      var n := |h| - 1;
      AllAllowedTotal(h[..n]);
      assert h == h[..n] + [h[n]];
      StretchSnoc(h[..n], h[n]);
    }
  }

  /** While every scan finds the cgroup allowed, each kernel increment is exported exactly once: right
      after a scan the exported counter is the kernel total. */
  lemma ExportedOnceWhileAllowed(su: Setup, trace: seq<Event>, k: Key)
    requires trace != [] && trace[|trace| - 1] == Look(k)
    requires forall i :: 0 <= i < |Sights(su, trace, k)| ==> Sights(su, trace, k)[i].allowed
    ensures GetOr0(BookAt(su, trace).exported, k) == TotalAt(su, trace, k)
  {
    ExportIsStretchTotal(su, trace, k);
    AllAllowedTotal(Sights(su, trace, k));
    SightsNeedARow(su, trace, k);
  }

  /** Some stretch of allowed sights was closed, before the last sight, with something in it. */
  ghost predicate ClosedBefore(h: seq<Sight>, n: nat)
    requires n <= |h|
  {
    exists i :: 0 <= i < n && EndsStretch(h, i) && h[i].total > 0
  }

  lemma {:induction false} SumEndsPositive(h: seq<Sight>, n: nat)
    requires n <= |h|
    ensures SumEnds(h, n) > 0 <==> ClosedBefore(h, n)
  {
    if n > 0 {
      SumEndsPositive(h, n - 1);
      if ClosedBefore(h, n - 1) {
        var i :| 0 <= i < n - 1 && EndsStretch(h, i) && h[i].total > 0;
        assert i < n && EndsStretch(h, i);
      }
      if EndsStretch(h, n - 1) && h[n - 1].total > 0 {
        assert ClosedBefore(h, n);
      }
    }
  }

  /** Right after a scan that finds the cgroup allowed, the exported counter is at least the kernel total,
      and equal to it exactly when no earlier allowed stretch was closed with something in it. */
  lemma ExportedOnceExactly(su: Setup, trace: seq<Event>, k: Key)
    requires trace != [] && trace[|trace| - 1] == Look(k) && k.0 in AllowedAt(trace)
    ensures
      var h, exported := Sights(su, trace, k), GetOr0(BookAt(su, trace).exported, k);
      && exported >= TotalAt(su, trace, k)
      && (exported == TotalAt(su, trace, k) <==> h == [] || !ClosedBefore(h, |h| - 1))
  {
    ExportIsStretchTotal(su, trace, k);
    SightsNeedARow(su, trace, k);
    var h := Sights(su, trace, k);
    if h != [] {
      SumEndsPositive(h, |h| - 1);
    }
  }

  lemma FirstIncrement(k: Key, d: nat)
    ensures KernelAt(Setup(1, 1), [Inc(k, 0, d)]) == map[k := [d]] && Sum([d]) == d
  {
    var t := [Inc(k, 0, d)];
    assert t[..0] == [] && [d][..0] == [];
    assert KernelAt(Setup(1, 1), t) == Added(map[], 1, 1, k, 0, d);
    assert Zeros(1)[0 := 0 + d] == [d];
  }

  /** A run in which one total is exported twice: counted and scanned, scanned while off the list, and
      scanned again after the return, with no increment in between. */
  lemma ReturnedIsExportedAgain(k: Key, d: nat)
    requires d > 0
    ensures
      var su := Setup(1, 1);
      var trace := [Inc(k, 0, d), Refresh({k.0}), Look(k), Refresh({}), Look(k), Refresh({k.0}), Look(k)];
      TotalAt(su, trace, k) == d && GetOr0(BookAt(su, trace).exported, k) == 2 * d
  {
    var t1: seq<Event> := [Inc(k, 0, d)];
    FirstIncrement(k, d);
    assert t1[..0] == [];
    var t7 := ThreeScans(Setup(1, 1), t1, k, d);
    assert t7 == [Inc(k, 0, d), Refresh({k.0}), Look(k), Refresh({}), Look(k), Refresh({k.0}), Look(k)];
  }

  lemma ThreeScans(su: Setup, trace: seq<Event>, k: Key, d: nat) returns (longer: seq<Event>)
    requires k in KernelAt(su, trace) && Sum(KernelAt(su, trace)[k]) == d > 0
    requires BookAt(su, trace) == Book(map[], map[])
    ensures longer == trace + [Refresh({k.0}), Look(k)] + [Refresh({}), Look(k)] + [Refresh({k.0}), Look(k)]
    ensures TotalAt(su, longer, k) == d && GetOr0(BookAt(su, longer).exported, k) == 2 * d
  {
    var on := Seen(su, trace, {k.0}, k);
    var off := Seen(su, on, {}, k);
    longer := Seen(su, off, {k.0}, k);
  }

  /** A refresh and a scan of one row. */
  lemma Seen(su: Setup, trace: seq<Event>, allowed: set<Cgid>, k: Key) returns (longer: seq<Event>)
    requires k in KernelAt(su, trace)
    ensures longer == trace + [Refresh(allowed), Look(k)]
    ensures KernelAt(su, longer) == KernelAt(su, trace)
    ensures BookAt(su, longer) == Visit(BookAt(su, trace), k.0 in allowed, k, Sum(KernelAt(su, trace)[k]))
  {
    var refreshed := trace + [Refresh(allowed)];
    longer := refreshed + [Look(k)];
    assert refreshed[..|trace|] == trace && longer[..|refreshed|] == refreshed;
  }

  lemma {:induction false} SightsNeedARow(su: Setup, trace: seq<Event>, k: Key)
    ensures Sights(su, trace, k) != [] ==> k in KernelAt(su, trace)
  {
    if trace != [] {
      SightsNeedARow(su, trace[..|trace| - 1], k);
    }
  }

  // ----- a scan is a run

  /** The rows a scan is given by the looks of a stretch of the run, each with the slots of its own moment. */
  function RowsSeen(su: Setup, trace: seq<Event>, during: seq<Event>): seq<(Key, seq<nat>)> {
    if during == [] then []
    else
      var init, e := during[..|during| - 1], during[|during| - 1];
      RowsSeen(su, trace, init) + RowOf(su, trace + init, e)
  }

  function RowOf(su: Setup, now: seq<Event>, e: Event): seq<(Key, seq<nat>)> {
    var m := KernelAt(su, now);
    if e.Look? && e.k in m then [(e.k, m[e.k])] else []
  }

  lemma OneMoreEvent(su: Setup, trace: seq<Event>, e: Event)
    requires !e.Refresh?
    ensures AllowedAt(trace + [e]) == AllowedAt(trace)
    ensures BookAt(su, trace + [e])
         == if e.Look? && e.k in KernelAt(su, trace) then
              Visit(BookAt(su, trace), e.k.0 in AllowedAt(trace), e.k, Sum(KernelAt(su, trace)[e.k]))
            else BookAt(su, trace)
  {
    assert (trace + [e])[..|trace|] == trace;
  }

  lemma ScanStep(su: Setup, now: seq<Event>, e: Event, b: Book, rows: seq<(Key, seq<nat>)>, row: seq<(Key, seq<nat>)>)
    requires !e.Refresh? && BookAt(su, now) == VisitAll(b, AllowedAt(now), rows)
    requires row == RowOf(su, now, e)
    ensures BookAt(su, now + [e]) == VisitAll(b, AllowedAt(now), rows + row)
    ensures AllowedAt(now + [e]) == AllowedAt(now)
  {
    OneMoreEvent(su, now, e);
    if e.Look? && e.k in KernelAt(su, now) {
      VisitOneMore(b, AllowedAt(now), rows, e.k, KernelAt(su, now)[e.k]);
    } else {
      assert rows + row == rows;
    }
  }

  lemma AppendLast(trace: seq<Event>, during: seq<Event>)
    requires during != []
    ensures trace + during == trace + during[..|during| - 1] + [during[|during| - 1]]
  {
  }

  /** However many increments land while a scan walks its rows, the scan is that stretch of the run. */
  lemma {:induction false} ScanIsRun(su: Setup, trace: seq<Event>, during: seq<Event>)
    requires forall i :: 0 <= i < |during| ==> !during[i].Refresh?
    ensures AllowedAt(trace + during) == AllowedAt(trace)
    ensures BookAt(su, trace + during) == VisitAll(BookAt(su, trace), AllowedAt(trace), RowsSeen(su, trace, during))
  {
    AppendEmpty(trace);
    if during != [] {
      var init, e := during[..|during| - 1], during[|during| - 1];
      ScanIsRun(su, trace, init);
      AppendLast(trace, during);
      ScanStep(su, trace + init, e, BookAt(su, trace), RowsSeen(su, trace, init), RowOf(su, trace + init, e));
    }
  }

  lemma AppendEmpty(trace: seq<Event>)
    ensures trace + [] == trace
  {
  }

  // ----- the scan loops as written

  class Scanner {
    var allowed: map<Cgid, string>
    var last: map<Key, nat>
    var exported: map<Key, nat>
    var lastKswapd: nat
    var kswapd: nat

    constructor ()
      ensures allowed == map[] && last == map[] && exported == map[] && lastKswapd == kswapd == 0
    {
      allowed, last, exported, lastKswapd, kswapd := map[], map[], map[], 0, 0;
    }

    static method SumSlots(val: seq<nat>) returns (total: nat)
      ensures total == Sum(val)
    {
      total := 0;
      var i := 0;
      while i < |val|
        invariant 0 <= i <= |val| && total == Sum(val[..i])
      {
        assert val[..i + 1][..i] == val[..i];
        total := total + val[i];
        i := i + 1;
      }
      assert val[..i] == val;
    }

    /** Walks the rows the map iterator yields. */
    method Scan(rows: seq<(Key, seq<nat>)>)
      modifies this`last, this`exported
      ensures Book(last, exported) == VisitAll(old(Book(last, exported)), allowed.Keys, rows)
    {
      var i := 0;
      while i < |rows|
        invariant 0 <= i <= |rows|
        invariant Book(last, exported) == VisitAll(old(Book(last, exported)), allowed.Keys, rows[..i])
      {
        var k := rows[i].0;
        assert rows[..i + 1] == rows[..i] + [(k, rows[i].1)];
        VisitOneMore(old(Book(last, exported)), allowed.Keys, rows[..i], k, rows[i].1);
        var total := SumSlots(rows[i].1);
        if k.0 !in allowed {
          last := last - {k};
        } else {
          var prev := if k in last then last[k] else 0;
          if total >= prev {
            var d := total - prev;
            if d > 0 {
              exported := exported[k := (if k in exported then exported[k] else 0) + d];
            }
          }
          last := last[k := total];
        }
        i := i + 1;
      }
      assert rows[..i] == rows;
    }

    /** The one-entry array: the counter that is not split by cgroup. */
    method ScanArray(val: seq<nat>)
      modifies this`lastKswapd, this`kswapd
      ensures lastKswapd == Sum(val)
      ensures kswapd == old(kswapd) + if Sum(val) >= old(lastKswapd) then Sum(val) - old(lastKswapd) else 0
    {
      var total := SumSlots(val);
      if total >= lastKswapd {
        var d := total - lastKswapd;
        if d > 0 {
          kswapd := kswapd + d;
        }
      }
      lastKswapd := total;
    }
  }
}
