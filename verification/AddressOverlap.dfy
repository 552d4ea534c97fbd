/**
 A run of the lifecycle machine in which two operations go by one address: a stop frees the address of a run
 that has not ended.
 */
module AddressOverlap {
  import opened Common
  import opened Ipam
  import opened Lifecycle
  import opened Runtime
  import opened RuntimeSteps

  const ALL_WELL := Faults(true, true, true, true, true, true, true, true)

  /** A run brought to where it waits for its child, a stop of its container by another operation, and a new
      run by that operation. */
  function WaitingRun(id: Id, req: RunRequest): seq<Step> {
    [BeginRun(0, id, req), RunAllocate(0, true, 0), WriteFirst(0, true, 0), MarkRunning(0, 1, true)]
  }

  function StopByOther(id: Id): seq<Step> {
    [ReadForStop(1, id), StopWrite(1, true, 0), StopCleanup(1, true)]
  }

  function NewRunByOther(id: Id, req: RunRequest): seq<Step> {
    [BeginRun(1, id, req), RunAllocate(1, true, 0)]
  }

  lemma ApplyDraws(net: Net, s: State, step: Step)
    requires V4Net(net)
    ensures Apply(net, s, step).drawn <= s.drawn + if step.BeginRun? || step.BeginCreate? then {step.id} else {}
  {
  }

  lemma {:induction false} NotDrawn(net: Net, n: nat, steps: seq<Step>, id: Id)
    requires V4Net(net)
    requires forall i :: 0 <= i < |steps| && (steps[i].BeginRun? || steps[i].BeginCreate?) ==> steps[i].id != id
    ensures id !in After(net, n, steps).drawn
  {
    if steps != [] {
      NotDrawn(net, n, steps[..|steps| - 1], id);
      ApplyDraws(net, After(net, n, steps[..|steps| - 1]), steps[|steps| - 1]);
    }
  }

  lemma CreatedRunSteps(net: Net, s: State, id: Id, req: RunRequest)
    requires V4Net(net) && Spot(s, Gone, Store(map[], map[])) && id !in s.drawn
    requires Gets(net, map[], id, req.requestedIP, true)
    ensures
      var o := Given(net, map[], id, req.requestedIP);
      var info := NewInfo(id, req, 0, req.requestedIP, Some(o.reply.ip));
      Spot(Executed(net, s, [BeginRun(0, id, req), RunAllocate(0, true, 0), WriteFirst(0, true, 0)]),
           RunCreated(info), Store(map[id := info], o.table))
  {
    var begin, allocate, write := BeginRun(0, id, req), RunAllocate(0, true, 0), WriteFirst(0, true, 0);
    var o := Given(net, map[], id, req.requestedIP);
    var info := NewInfo(id, req, 0, req.requestedIP, Some(o.reply.ip));
    var s1 := Apply(net, s, begin);
    var s2 := Apply(net, s1, allocate);
    ThreeSteps(net, s, begin, allocate, write);
    BeginRunStep(net, s, id, req, Store(map[], map[]));
    RunAllocateStep(net, s1, id, req, Store(map[], map[]), true, 0);
    WriteFirstStep(net, s2, info, Store(map[], o.table), true, 0);
  }

  lemma MarkedRunSteps(net: Net, s: State, info: Info, table: Table)
    requires V4Net(net) && Spot(s, RunCreated(info), Store(map[info.id := info], table))
    ensures
      var i := AsRunning(info, 1, true);
      Spot(Executed(net, s, [MarkRunning(0, 1, true)]), RunWaiting(i), Store(map[info.id := i], table))
  {
    OneStep(net, s, MarkRunning(0, 1, true));
    MarkRunningStep(net, s, info, Store(map[info.id := info], table), 1, true, true);
    assert map[info.id := info][info.id := AsRunning(info, 1, true)] == map[info.id := AsRunning(info, 1, true)];
  }

  lemma WaitingRunSteps(net: Net, s: State, id: Id, req: RunRequest)
    requires V4Net(net) && Spot(s, Gone, Store(map[], map[])) && id !in s.drawn
    requires Gets(net, map[], id, req.requestedIP, true)
    ensures
      var o := Given(net, map[], id, req.requestedIP);
      var i := AsRunning(NewInfo(id, req, 0, req.requestedIP, Some(o.reply.ip)), 1, true);
      Spot(Executed(net, s, WaitingRun(id, req)), RunWaiting(i), Store(map[id := i], o.table))
  {
    var first := [BeginRun(0, id, req), RunAllocate(0, true, 0), WriteFirst(0, true, 0)];
    var mark := MarkRunning(0, 1, true);
    var o := Given(net, map[], id, req.requestedIP);
    var info := NewInfo(id, req, 0, req.requestedIP, Some(o.reply.ip));
    CreatedRunSteps(net, s, id, req);
    MarkedRunSteps(net, Executed(net, s, first), info, o.table);
    ExecutedAppend(net, s, first, [mark]);
    assert WaitingRun(id, req) == first + [mark];
  }

  lemma NewRunSteps(net: Net, s: State, id: Id, req: RunRequest, st: Store)
    requires V4Net(net) && Spot(s, Gone, st) && id !in s.drawn
    requires Gets(net, st.table, id, req.requestedIP, true)
    ensures
      var o := Given(net, st.table, id, req.requestedIP);
      Executed(net, s, [BeginRun(0, id, req), RunAllocate(0, true, 0)]).procs
      == [RunHolding(NewInfo(id, req, 0, req.requestedIP, Some(o.reply.ip)))]
  {
    TwoSteps(net, s, BeginRun(0, id, req), RunAllocate(0, true, 0));
    BeginRunStep(net, s, id, req, st);
    RunAllocateStep(net, Apply(net, s, BeginRun(0, id, req)), id, req, st, true, 0);
  }

  /** An empty table has an address for anyone, and the same for everyone who asks the same. */
  lemma FirstAddress(a: Id, b: Id, req: Requested)
    ensures V4Net(GOCKER_NET)
    ensures Gets(GOCKER_NET, map[], a, req, true) && Gets(GOCKER_NET, map[], b, req, true)
    ensures Given(GOCKER_NET, map[], a, req).reply == Given(GOCKER_NET, map[], b, req).reply
    ensures Given(GOCKER_NET, map[], a, req).table == map[a := Given(GOCKER_NET, map[], a, req).reply.ip]
  {
    ConfiguredCapacity([], a, req);
    ConfiguredCapacity([], b, req);
    assert RunOps(GOCKER_NET, map[], []) == map[];
  }

  lemma TheirSteps(a: Id, b: Id, req: RunRequest)
    ensures AtZero(WaitingRun(a, req)) == WaitingRun(a, req)
    ensures AtZero(StopByOther(a)) == StopSteps(a, ALL_WELL, 0)
    ensures AtZero(NewRunByOther(b, req)) == [BeginRun(0, b, req), RunAllocate(0, true, 0)]
    ensures [] + WaitingRun(a, req) == WaitingRun(a, req)
  {
  }

  /** The waiting run's copy of its record. */
  function WaitingInfo(net: Net, id: Id, req: RunRequest): Info
    requires V4Net(net) && Gets(net, map[], id, req.requestedIP, true)
  {
    AsRunning(NewInfo(id, req, 0, req.requestedIP, Some(Given(net, map[], id, req.requestedIP).reply.ip)), 1, true)
  }

  lemma AfterWaitingRun(net: Net, a: Id, req: RunRequest)
    requires V4Net(net) && Gets(net, map[], a, req.requestedIP, true)
    ensures
      var s := After(net, 2, WaitingRun(a, req));
      && s.procs == [RunWaiting(WaitingInfo(net, a, req)), Gone]
      && s.records == map[a := WaitingInfo(net, a, req)]
      && s.table == Given(net, map[], a, req.requestedIP).table
  {
    TheirSteps(a, a, req);
    UninterruptedIsAlone(net, 2, [], 0, WaitingRun(a, req));
    WaitingRunSteps(net, Only(After(net, 2, []), 0), a, req);
  }

  lemma AfterStop(net: Net, a: Id, req: RunRequest)
    requires V4Net(net) && Gets(net, map[], a, req.requestedIP, true)
    requires Given(net, map[], a, req.requestedIP).table.Keys == {a}
    ensures
      var s := After(net, 2, WaitingRun(a, req) + StopByOther(a));
      s.procs == [RunWaiting(WaitingInfo(net, a, req)), Gone] && s.table == map[]
  {
    var st := Store(map[a := WaitingInfo(net, a, req)], Given(net, map[], a, req.requestedIP).table);
    AfterWaitingRun(net, a, req);
    TheirSteps(a, a, req);
    UninterruptedIsAlone(net, 2, WaitingRun(a, req), 1, StopByOther(a));
    StopIsSteps(net, Only(After(net, 2, WaitingRun(a, req)), 1), st, a, ALL_WELL, 0);
    StopEmpties(st, a);
  }

  lemma StopEmpties(st: Store, a: Id)
    requires a in st.records && st.records[a].status == RUNNING && st.table.Keys == {a}
    ensures StopOutcome(st, a, ALL_WELL, 0).table == map[]
  {
  }

  lemma AfterNewRun(net: Net, before: seq<Step>, b: Id, req: RunRequest)
    requires V4Net(net) && Gets(net, map[], b, req.requestedIP, true)
    requires
      var s := After(net, 2, before);
      |s.procs| == 2 && s.procs[1] == Gone && s.table == map[] && b !in s.drawn
    ensures
      var s, s' := After(net, 2, before), After(net, 2, before + NewRunByOther(b, req));
      && |s'.procs| == 2 && s'.procs[0] == s.procs[0]
      && AddressOf(s'.procs[1]) == Some((b, Given(net, map[], b, req.requestedIP).reply.ip))
  {
    var s := After(net, 2, before);
    TheirSteps(b, b, req);
    UninterruptedIsAlone(net, 2, before, 1, NewRunByOther(b, req));
    NewRunSteps(net, Only(s, 1), b, req, Store(s.records, map[]));
  }

  lemma OtherIsNotDrawn(net: Net, a: Id, b: Id, req: RunRequest)
    requires V4Net(net) && a != b
    ensures b !in After(net, 2, WaitingRun(a, req) + StopByOther(a)).drawn
  {
    NotDrawn(net, 2, WaitingRun(a, req) + StopByOther(a), b);
  }

  /** Why the distinctness of addresses needs that nobody released them: a stop frees the address of a run
      that still waits for its child, and a new run is given it. Both then go by one address. */
  lemma StoppedRunSharesAddress(a: Id, b: Id, req: RunRequest)
    requires a != b
    ensures V4Net(GOCKER_NET)
    ensures
      var s := After(GOCKER_NET, 2, WaitingRun(a, req) + StopByOther(a) + NewRunByOther(b, req));
      && |s.procs| == 2
      && exists ip :: AddressOf(s.procs[0]) == Some((a, ip)) && AddressOf(s.procs[1]) == Some((b, ip))
  {
    FirstAddress(a, b, req.requestedIP);
    AfterStop(GOCKER_NET, a, req);
    OtherIsNotDrawn(GOCKER_NET, a, b, req);
    AfterNewRun(GOCKER_NET, WaitingRun(a, req) + StopByOther(a), b, req);
  }
}
