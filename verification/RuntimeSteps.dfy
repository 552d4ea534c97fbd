/**
 The lifecycle operations of `Runtime` are stretches of steps of the machine of `Lifecycle`: each outcome is
 what the operation's steps leave when nothing comes between them. By `Lifecycle.UninterruptedIsAlone` the
 same holds of such a stretch in any run of any number of operations.
 */
module RuntimeSteps {
  import opened Common
  import opened Ipam
  import opened Lifecycle
  import opened Runtime

  function RunSteps(id: Id, req: RunRequest, f: Faults, pid: int, now: nat): seq<Step> {
    [BeginRun(0, id, req), RunAllocate(0, f.allocates, now), WriteFirst(0, f.firstWrite, now)]
    + LaunchSteps(f, pid, now)
  }

  function LaunchSteps(f: Faults, pid: int, now: nat): seq<Step> {
    if !f.firstWrite || !f.launches || !f.setUp || !f.hand then [GiveUp(0, f.releases)]
    else [MarkRunning(0, pid, f.runningWrite), MarkExited(0, f.exitWrite, now), GiveUp(0, f.releases)]
  }

  function StartSteps(id: Id, f: Faults, pid: int, now: nat): seq<Step> {
    if !f.launches then [ReadForStart(0, id), GiveUp(0, f.releases)]
    else [ReadForStart(0, id), StartAllocate(0, f.allocates)] + HeldSteps(f, pid, now)
  }

  function HeldSteps(f: Faults, pid: int, now: nat): seq<Step> {
    if !f.hand then [GiveUp(0, f.releases)]
    else if !f.setUp then [MarkRunning(0, pid, f.runningWrite), GiveUp(0, f.releases)]
    else [MarkRunning(0, pid, f.runningWrite), MarkExited(0, f.exitWrite, now), GiveUp(0, f.releases)]
  }

  function CreateSteps(id: Id, req: RunRequest, f: Faults, pid: int, now: nat): seq<Step> {
    [BeginCreate(0, id, req), WriteFirst(0, f.firstWrite, now),
     if !f.launches || !f.setUp || !f.hand then GiveUp(0, true) else MarkRunning(0, pid, f.runningWrite)]
  }

  function StopSteps(id: Id, f: Faults, now: nat): seq<Step> {
    if !f.hand then [ReadForStop(0, id), GiveUp(0, f.releases)]
    else [ReadForStop(0, id), StopWrite(0, f.exitWrite, now), StopCleanup(0, f.releases)]
  }

  function AdjustSteps(id: Id, limits: Limits, f: Faults): seq<Step> {
    [ReadForAdjust(0, id, limits), if f.setUp then AdjustWrite(0, f.exitWrite) else GiveUp(0, f.releases)]
  }

  function RemoveSteps(id: Id, f: Faults): seq<Step> {
    [ReadForRemove(0, id), if f.setUp then RemoveDelete(0) else GiveUp(0, f.releases)]
  }

  /** The one operation is at `proc`, and `st` is stored. */
  ghost predicate Spot(s: State, proc: Proc, st: Store) {
    s.procs == [proc] && s.records == st.records && s.table == st.table
  }

  lemma {:induction false} ExecutedAppend(net: Net, s: State, xs: seq<Step>, ys: seq<Step>)
    requires V4Net(net)
    ensures Executed(net, s, xs + ys) == Executed(net, Executed(net, s, xs), ys)
  {
    if ys == [] {
      assert xs + ys == xs;
    } else {
      ExecutedAppend(net, s, xs, ys[..|ys| - 1]);
      assert (xs + ys)[..|xs + ys| - 1] == xs + ys[..|ys| - 1];
    }
  }

  lemma OneStep(net: Net, s: State, a: Step)
    requires V4Net(net)
    ensures Executed(net, s, [a]) == Apply(net, s, a)
  {
    assert [a][..0] == [];
    assert Executed(net, s, []) == s;
  }

  lemma TwoSteps(net: Net, s: State, a: Step, b: Step)
    requires V4Net(net)
    ensures Executed(net, s, [a, b]) == Apply(net, Apply(net, s, a), b)
  {
    OneStep(net, s, a);
    OneStep(net, Apply(net, s, a), b);
    ExecutedAppend(net, s, [a], [b]);
    assert [a, b] == [a] + [b];
  }

  lemma ThreeSteps(net: Net, s: State, a: Step, b: Step, c: Step)
    requires V4Net(net)
    ensures Executed(net, s, [a, b, c]) == Apply(net, Apply(net, Apply(net, s, a), b), c)
  {
    TwoSteps(net, s, a, b);
    OneStep(net, Apply(net, Apply(net, s, a), b), c);
    ExecutedAppend(net, s, [a, b], [c]);
    assert [a, b, c] == [a, b] + [c];
  }

  /** An operation that is over takes none of the steps of its kind that would come later. */
  lemma OverStays(net: Net, s: State, step: Step, st: Store)
    requires V4Net(net) && Spot(s, Gone, st)
    requires step.RunAllocate? || step.WriteFirst? || step.StartAllocate? || step.MarkRunning? || step.MarkExited?
             || step.GiveUp? || step.StopWrite? || step.StopCleanup? || step.AdjustWrite? || step.RemoveDelete?
    ensures Spot(Apply(net, s, step), Gone, st)
  {
  }

  lemma ReleaseStep(net: Net, s: State, c: Change, id: Id, releases: bool)
    requires V4Net(net) && |s.procs| == 1 && c.table == Release(id, releases)
    ensures
      Spot(Commit(net, s, 0, c), c.next, Released(Store(Records(s.records, c.record), s.table), id, releases))
  {
    if releases && id !in s.table {
      assert s.table - {id} == s.table;
    }
  }

  /** So none of these stretches, one to three steps long, does anything. */
  lemma OverStaysFor(net: Net, s: State, a: Step, b: Step, c: Step, st: Store)
    requires V4Net(net) && Spot(s, Gone, st)
    requires a.MarkRunning? || a.GiveUp?
    requires b.MarkExited? || b.GiveUp?
    requires c.GiveUp?
    ensures Spot(Executed(net, s, [a]), Gone, st)
    ensures Spot(Executed(net, s, [a, b]), Gone, st)
    ensures Spot(Executed(net, s, [a, b, c]), Gone, st)
  {
    OneStep(net, s, a);
    TwoSteps(net, s, a, b);
    ThreeSteps(net, s, a, b, c);
    OverStays(net, s, a, st);
    OverStays(net, Apply(net, s, a), b, st);
    OverStays(net, Apply(net, Apply(net, s, a), b), c, st);
  }

  // What each step of an operation does where the operation is ready for it.

  lemma GiveUpStep(net: Net, s: State, proc: Proc, st: Store, freed: bool)
    requires V4Net(net) && Spot(s, proc, st)
    ensures match proc
            case Exiting(id) => Spot(Apply(net, s, GiveUp(0, freed)), Gone, Released(st, id, freed))
            case RunCreated(info) => Spot(Apply(net, s, GiveUp(0, freed)), Gone, Released(st, info.id, freed))
            case StartHolding(info) => Spot(Apply(net, s, GiveUp(0, freed)), Gone, Released(st, info.id, freed))
            case StartWaiting(info) => Spot(Apply(net, s, GiveUp(0, freed)), Gone, Released(st, info.id, freed))
            case StartRead(_) => Spot(Apply(net, s, GiveUp(0, freed)), Gone, st)
            case StopRead(_) => Spot(Apply(net, s, GiveUp(0, freed)), Gone, st)
            case AdjustRead(_, _) => Spot(Apply(net, s, GiveUp(0, freed)), Gone, st)
            case RemoveRead(_) => Spot(Apply(net, s, GiveUp(0, freed)), Gone, st)
            case _ => true
  {
    var c := Plan(net, s, GiveUp(0, freed));
    match proc
    case Exiting(id) => ReleaseStep(net, s, c.value, id, freed);
    case RunCreated(info) => ReleaseStep(net, s, c.value, info.id, freed);
    case StartHolding(info) => ReleaseStep(net, s, c.value, info.id, freed);
    case StartWaiting(info) => ReleaseStep(net, s, c.value, info.id, freed);
    case _ =>
  }

  lemma MarkRunningStep(net: Net, s: State, info: Info, st: Store, pid: int, ok: bool, first: bool)
    requires V4Net(net) && pid != 0 && Spot(s, if first then RunCreated(info) else StartHolding(info), st)
    ensures
      var i := AsRunning(info, pid, first);
      Spot(Apply(net, s, MarkRunning(0, pid, ok)), if first then RunWaiting(i) else StartWaiting(i), Written(st, i, ok))
  {
  }

  lemma MarkExitedStep(net: Net, s: State, info: Info, st: Store, ok: bool, now: nat, first: bool)
    requires V4Net(net) && Spot(s, if first then RunWaiting(info) else StartWaiting(info), st)
    ensures
      var i := Exited(info, if first then info.finishedAt else Some(now));
      Spot(Apply(net, s, MarkExited(0, ok, now)), Exiting(info.id), Written(st, i, ok))
  {
  }

  lemma LaunchIsSteps(net: Net, s: State, info: Info, st: Store, f: Faults, pid: int, now: nat)
    requires V4Net(net) && pid != 0 && Spot(s, RunCreated(info), st) && f.firstWrite
    ensures Spot(Executed(net, s, LaunchSteps(f, pid, now)), Gone, LaunchOutcome(st, info, f, pid))
  {
    var give := GiveUp(0, f.releases);
    if !f.launches || !f.setUp || !f.hand {
      OneStep(net, s, give);
      GiveUpStep(net, s, RunCreated(info), st, f.releases);
    } else {
      var mark, exit := MarkRunning(0, pid, f.runningWrite), MarkExited(0, f.exitWrite, now);
      var i := AsRunning(info, pid, true);
      ThreeSteps(net, s, mark, exit, give);
      var s1 := Apply(net, s, mark);
      var st1 := Written(st, i, f.runningWrite);
      MarkRunningStep(net, s, info, st, pid, f.runningWrite, true);
      MarkExitedStep(net, s1, i, st1, f.exitWrite, now, true);
      GiveUpStep(net, Apply(net, s1, exit), Exiting(info.id), Written(st1, Exited(i, i.finishedAt), f.exitWrite), f.releases);
    }
  }

  lemma HeldIsSteps(net: Net, s: State, info: Info, st: Store, f: Faults, pid: int, now: nat)
    requires V4Net(net) && pid != 0 && Spot(s, StartHolding(info), st)
    ensures Spot(Executed(net, s, HeldSteps(f, pid, now)), Gone, HeldOutcome(st, info, f, pid, now))
  {
    var give := GiveUp(0, f.releases);
    if !f.hand {
      OneStep(net, s, give);
      GiveUpStep(net, s, StartHolding(info), st, f.releases);
    } else {
      var mark, exit := MarkRunning(0, pid, f.runningWrite), MarkExited(0, f.exitWrite, now);
      var i := AsRunning(info, pid, false);
      var s1 := Apply(net, s, mark);
      var st1 := Written(st, i, f.runningWrite);
      MarkRunningStep(net, s, info, st, pid, f.runningWrite, false);
      if f.setUp {
        ThreeSteps(net, s, mark, exit, give);
        MarkExitedStep(net, s1, i, st1, f.exitWrite, now, false);
        GiveUpStep(net, Apply(net, s1, exit), Exiting(info.id), Written(st1, Exited(i, Some(now)), f.exitWrite), f.releases);
      } else {
        TwoSteps(net, s, mark, give);
        GiveUpStep(net, s1, StartWaiting(i), st1, f.releases);
      }
    }
  }

  lemma BeginRunStep(net: Net, s: State, id: Id, req: RunRequest, st: Store)
    requires V4Net(net) && Spot(s, Gone, st) && id !in s.drawn
    ensures Spot(Apply(net, s, BeginRun(0, id, req)), RunBegun(id, req), st)
  {
  }

  lemma RunAllocateStep(net: Net, s: State, id: Id, req: RunRequest, st: Store, ok: bool, now: nat)
    requires V4Net(net) && Spot(s, RunBegun(id, req), st)
    ensures
      var s', o := Apply(net, s, RunAllocate(0, ok, now)), Given(net, st.table, id, req.requestedIP);
      if Gets(net, st.table, id, req.requestedIP, ok) then
        Spot(s', RunHolding(NewInfo(id, req, now, req.requestedIP, Some(o.reply.ip))), st.(table := o.table))
      else Spot(s', Gone, st)
  {
  }

  lemma WriteFirstStep(net: Net, s: State, info: Info, st: Store, ok: bool, now: nat)
    requires V4Net(net) && Spot(s, RunHolding(info), st)
    ensures
      var s' := Apply(net, s, WriteFirst(0, ok, now));
      if ok then Spot(s', RunCreated(info), st.(records := st.records[info.id := info]))
      else Spot(s', Exiting(info.id), st)
  {
  }

  lemma LaunchOverIsSteps(net: Net, s: State, st: Store, f: Faults, pid: int, now: nat)
    requires V4Net(net) && Spot(s, Gone, st)
    ensures Spot(Executed(net, s, LaunchSteps(f, pid, now)), Gone, st)
  {
    var give := GiveUp(0, f.releases);
    OverStaysFor(net, s, give, give, give, st);
    OverStaysFor(net, s, MarkRunning(0, pid, f.runningWrite), MarkExited(0, f.exitWrite, now), give, st);
  }

  /** A run is a stretch of steps: wherever an operation may begin, with a new id, they end it with the
      outcome of the run. */
  lemma RunIsSteps(net: Net, s: State, st: Store, id: Id, req: RunRequest, f: Faults, pid: int, now: nat)
    requires V4Net(net) && pid != 0 && Spot(s, Gone, st) && id !in s.drawn
    ensures Spot(Executed(net, s, RunSteps(id, req, f, pid, now)), Gone, RunOutcome(net, st, id, req, f, pid, now))
  {
    var begin, allocate := BeginRun(0, id, req), RunAllocate(0, f.allocates, now);
    var write := WriteFirst(0, f.firstWrite, now);
    var s1 := Apply(net, s, begin);
    var s2 := Apply(net, s1, allocate);
    var s3 := Apply(net, s2, write);
    ThreeSteps(net, s, begin, allocate, write);
    ExecutedAppend(net, s, [begin, allocate, write], LaunchSteps(f, pid, now));
    BeginRunStep(net, s, id, req, st);
    RunAllocateStep(net, s1, id, req, st, f.allocates, now);
    if !Gets(net, st.table, id, req.requestedIP, f.allocates) {
      OverStays(net, s2, write, st);
      LaunchOverIsSteps(net, s3, st, f, pid, now);
    } else {
      var o := Given(net, st.table, id, req.requestedIP);
      var info, st2 := NewInfo(id, req, now, req.requestedIP, Some(o.reply.ip)), st.(table := o.table);
      WriteFirstStep(net, s2, info, st2, f.firstWrite, now);
      if f.firstWrite {
        LaunchIsSteps(net, s3, info, Store(st.records[id := info], o.table), f, pid, now);
      } else {
        OneStep(net, s3, GiveUp(0, f.releases));
        GiveUpStep(net, s3, Exiting(id), st2, f.releases);
      }
    }
  }

  lemma ReadForStartStep(net: Net, s: State, id: Id, st: Store)
    requires V4Net(net) && Spot(s, Gone, st)
    ensures Spot(Apply(net, s, ReadForStart(0, id)),
                 if id in st.records && st.records[id].status in {STOPPED, CREATED} then StartRead(st.records[id]) else Gone,
                 st)
  {
  }

  lemma StartAllocateStep(net: Net, s: State, info: Info, st: Store, ok: bool)
    requires V4Net(net) && Spot(s, StartRead(info), st)
    ensures
      var s', o := Apply(net, s, StartAllocate(0, ok)), Given(net, st.table, info.id, Desired(info));
      if Gets(net, st.table, info.id, Desired(info), ok) then
        Spot(s', StartHolding(info.(ipAddress := Some(o.reply.ip))), st.(table := o.table))
      else Spot(s', Gone, st)
  {
  }

  lemma HeldOverIsSteps(net: Net, s: State, st: Store, f: Faults, pid: int, now: nat)
    requires V4Net(net) && Spot(s, Gone, st)
    ensures Spot(Executed(net, s, HeldSteps(f, pid, now)), Gone, st)
  {
    var mark := MarkRunning(0, pid, f.runningWrite);
    var give := GiveUp(0, f.releases);
    OverStaysFor(net, s, give, give, give, st);
    OverStaysFor(net, s, mark, give, give, st);
    OverStaysFor(net, s, mark, MarkExited(0, f.exitWrite, now), give, st);
  }

  /** A start is a stretch of steps. */
  lemma StartIsSteps(net: Net, s: State, st: Store, id: Id, f: Faults, pid: int, now: nat)
    requires V4Net(net) && pid != 0 && Spot(s, Gone, st)
    requires id in st.records ==> st.records[id].id == id
    ensures Spot(Executed(net, s, StartSteps(id, f, pid, now)), Gone, StartOutcome(net, st, id, f, pid, now))
  {
    var read, give, allocate := ReadForStart(0, id), GiveUp(0, f.releases), StartAllocate(0, f.allocates);
    var s1 := Apply(net, s, read);
    var ready := id in st.records && st.records[id].status in {STOPPED, CREATED};
    ReadForStartStep(net, s, id, st);
    if !f.launches {
      TwoSteps(net, s, read, give);
      if ready {
        GiveUpStep(net, s1, StartRead(st.records[id]), st, f.releases);
      } else {
        OverStays(net, s1, give, st);
      }
    } else {
      var s2 := Apply(net, s1, allocate);
      TwoSteps(net, s, read, allocate);
      ExecutedAppend(net, s, [read, allocate], HeldSteps(f, pid, now));
      if ready {
        StartAllocateStep(net, s1, st.records[id], st, f.allocates);
      } else {
        OverStays(net, s1, allocate, st);
      }
      if ready && Gets(net, st.table, id, Desired(st.records[id]), f.allocates) {
        var o := Given(net, st.table, id, Desired(st.records[id]));
        HeldIsSteps(net, s2, st.records[id].(ipAddress := Some(o.reply.ip)), st.(table := o.table), f, pid, now);
      } else {
        HeldOverIsSteps(net, s2, st, f, pid, now);
      }
    }
  }

  lemma BeginCreateStep(net: Net, s: State, id: Id, req: RunRequest, st: Store)
    requires V4Net(net) && Spot(s, Gone, st) && id !in s.drawn
    ensures Spot(Apply(net, s, BeginCreate(0, id, req)), CreateBegun(id, req), st)
  {
  }

  lemma CreateWriteStep(net: Net, s: State, id: Id, req: RunRequest, st: Store, ok: bool, now: nat)
    requires V4Net(net) && Spot(s, CreateBegun(id, req), st)
    ensures
      var s', info := Apply(net, s, WriteFirst(0, ok, now)), NewInfo(id, req, now, Unspecified, None);
      if ok then Spot(s', CreateMade(info), st.(records := st.records[id := info])) else Spot(s', Gone, st)
  {
  }

  lemma CreateFirstSteps(net: Net, s: State, id: Id, req: RunRequest, st: Store, ok: bool, now: nat)
    requires V4Net(net) && Spot(s, Gone, st) && id !in s.drawn
    ensures
      var s', info := Apply(net, Apply(net, s, BeginCreate(0, id, req)), WriteFirst(0, ok, now)), NewInfo(id, req, now, Unspecified, None);
      if ok then Spot(s', CreateMade(info), st.(records := st.records[id := info])) else Spot(s', Gone, st)
  {
    BeginCreateStep(net, s, id, req, st);
    CreateWriteStep(net, Apply(net, s, BeginCreate(0, id, req)), id, req, st, ok, now);
  }

  lemma CreateLastStep(net: Net, s: State, info: Info, st: Store, pid: int, ok: bool, freed: bool)
    requires V4Net(net) && pid != 0 && Spot(s, CreateMade(info), st)
    ensures Spot(Apply(net, s, GiveUp(0, freed)), Gone, st)
    ensures
      var i := AsRunning(info, pid, true);
      Spot(Apply(net, s, MarkRunning(0, pid, ok)), CreateWaiting(i), Written(st, i, ok))
  {
  }

  /** A create is a stretch of steps, which leaves its waiter behind when it succeeds. */
  lemma CreateIsSteps(net: Net, s: State, st: Store, id: Id, req: RunRequest, f: Faults, pid: int, now: nat)
    requires V4Net(net) && pid != 0 && Spot(s, Gone, st) && id !in s.drawn
    ensures
      var (left, waiter) := CreateOutcome(st, id, req, f, pid, now);
      Spot(Executed(net, s, CreateSteps(id, req, f, pid, now)), if waiter.None? then Gone else CreateWaiting(waiter.value), left)
  {
    var begin, write := BeginCreate(0, id, req), WriteFirst(0, f.firstWrite, now);
    var last := CreateSteps(id, req, f, pid, now)[2];
    var s2 := Apply(net, Apply(net, s, begin), write);
    ThreeSteps(net, s, begin, write, last);
    CreateFirstSteps(net, s, id, req, st, f.firstWrite, now);
    if f.firstWrite {
      var info := NewInfo(id, req, now, Unspecified, None);
      CreateLastStep(net, s2, info, st.(records := st.records[id := info]), pid, f.runningWrite, true);
    } else {
      OverStays(net, s2, last, st);
    }
  }

  lemma ReadForStopStep(net: Net, s: State, id: Id, st: Store)
    requires V4Net(net) && Spot(s, Gone, st)
    ensures Spot(Apply(net, s, ReadForStop(0, id)),
                 if id in st.records && st.records[id].status == RUNNING then StopRead(st.records[id]) else Gone, st)
  {
  }

  lemma StopWriteStep(net: Net, s: State, info: Info, st: Store, ok: bool, now: nat)
    requires V4Net(net) && Spot(s, StopRead(info), st)
    ensures Spot(Apply(net, s, StopWrite(0, ok, now)), if ok then StopWritten(info.id) else Gone,
                 Written(st, Exited(info, Some(now)), ok))
  {
  }

  lemma StopCleanupStep(net: Net, s: State, id: Id, st: Store, freed: bool)
    requires V4Net(net) && Spot(s, StopWritten(id), st)
    ensures Spot(Apply(net, s, StopCleanup(0, freed)), Gone, Released(st, id, freed))
  {
    var c := Quiet(Gone).(table := Release(id, freed));
    assert Plan(net, s, StopCleanup(0, freed)) == Some(c);
    ReleaseStep(net, s, c, id, freed);
  }

  lemma StopGivesUp(net: Net, s: State, st: Store, id: Id, f: Faults, now: nat)
    requires V4Net(net) && Spot(s, Gone, st) && !f.hand
    ensures Spot(Executed(net, s, StopSteps(id, f, now)), Gone, st)
  {
    var read, give := ReadForStop(0, id), GiveUp(0, f.releases);
    var s1 := Apply(net, s, read);
    TwoSteps(net, s, read, give);
    ReadForStopStep(net, s, id, st);
    if id !in st.records || st.records[id].status != RUNNING {
      OverStays(net, s1, give, st);
    } else {
      GiveUpStep(net, s1, StopRead(st.records[id]), st, f.releases);
    }
  }

  lemma StopWrites(net: Net, s: State, st: Store, id: Id, f: Faults, now: nat)
    requires V4Net(net) && Spot(s, Gone, st) && f.hand
    requires id in st.records && st.records[id].id == id && st.records[id].status == RUNNING
    ensures Spot(Executed(net, s, StopSteps(id, f, now)), Gone, StopOutcome(st, id, f, now))
  {
    var read, write, clean := ReadForStop(0, id), StopWrite(0, f.exitWrite, now), StopCleanup(0, f.releases);
    var s1 := Apply(net, s, read);
    var s2 := Apply(net, s1, write);
    ThreeSteps(net, s, read, write, clean);
    ReadForStopStep(net, s, id, st);
    StopWriteStep(net, s1, st.records[id], st, f.exitWrite, now);
    var st2 := Written(st, Exited(st.records[id], Some(now)), f.exitWrite);
    if f.exitWrite {
      StopCleanupStep(net, s2, id, st2, f.releases);
    } else {
      OverStays(net, s2, clean, st2);
    }
  }

  /** A stop is a stretch of steps. */
  lemma StopIsSteps(net: Net, s: State, st: Store, id: Id, f: Faults, now: nat)
    requires V4Net(net) && Spot(s, Gone, st)
    requires id in st.records ==> st.records[id].id == id
    ensures Spot(Executed(net, s, StopSteps(id, f, now)), Gone, StopOutcome(st, id, f, now))
  {
    if !f.hand {
      StopGivesUp(net, s, st, id, f, now);
    } else if id in st.records && st.records[id].status == RUNNING {
      StopWrites(net, s, st, id, f, now);
    } else {
      var read, write, clean := ReadForStop(0, id), StopWrite(0, f.exitWrite, now), StopCleanup(0, f.releases);
      var s1 := Apply(net, s, read);
      ThreeSteps(net, s, read, write, clean);
      ReadForStopStep(net, s, id, st);
      OverStays(net, s1, write, st);
      OverStays(net, Apply(net, s1, write), clean, st);
    }
  }

  lemma ReadForAdjustStep(net: Net, s: State, id: Id, limits: Limits, st: Store)
    requires V4Net(net) && Spot(s, Gone, st)
    ensures Spot(Apply(net, s, ReadForAdjust(0, id, limits)),
                 if id in st.records && st.records[id].status == RUNNING then
                   AdjustRead(st.records[id], MergeLimits(limits, st.records[id].limits))
                 else Gone, st)
  {
  }

  lemma AdjustWriteStep(net: Net, s: State, info: Info, limits: Limits, st: Store, ok: bool)
    requires V4Net(net) && Spot(s, AdjustRead(info, limits), st)
    ensures Spot(Apply(net, s, AdjustWrite(0, ok)), Gone, Written(st, info.(limits := limits), ok))
  {
  }

  /** An adjustment is a stretch of steps. */
  lemma AdjustIsSteps(net: Net, s: State, st: Store, id: Id, limits: Limits, f: Faults)
    requires V4Net(net) && Spot(s, Gone, st)
    requires id in st.records ==> st.records[id].id == id
    ensures Spot(Executed(net, s, AdjustSteps(id, limits, f)), Gone, AdjustOutcome(st, id, limits, f))
  {
    var read, give, write := ReadForAdjust(0, id, limits), GiveUp(0, f.releases), AdjustWrite(0, f.exitWrite);
    var s1 := Apply(net, s, read);
    TwoSteps(net, s, read, give);
    TwoSteps(net, s, read, write);
    ReadForAdjustStep(net, s, id, limits, st);
    if id !in st.records || st.records[id].status != RUNNING {
      OverStays(net, s1, give, st);
      OverStays(net, s1, write, st);
    } else {
      var info := st.records[id];
      var merged := MergeLimits(limits, info.limits);
      GiveUpStep(net, s1, AdjustRead(info, merged), st, f.releases);
      AdjustWriteStep(net, s1, info, merged, st, f.exitWrite);
    }
  }

  lemma ReadForRemoveStep(net: Net, s: State, id: Id, st: Store)
    requires V4Net(net) && Spot(s, Gone, st)
    ensures Spot(Apply(net, s, ReadForRemove(0, id)),
                 if id in st.records && st.records[id].status != RUNNING then RemoveRead(id) else Gone, st)
  {
  }

  lemma RemoveDeleteStep(net: Net, s: State, id: Id, st: Store)
    requires V4Net(net) && Spot(s, RemoveRead(id), st)
    ensures Spot(Apply(net, s, RemoveDelete(0)), Gone, st.(records := st.records - {id}))
  {
  }

  /** A removal is a stretch of steps. */
  lemma RemoveIsSteps(net: Net, s: State, st: Store, id: Id, f: Faults)
    requires V4Net(net) && Spot(s, Gone, st)
    ensures Spot(Executed(net, s, RemoveSteps(id, f)), Gone, RemoveOutcome(st, id, f))
  {
    var read, give, delete := ReadForRemove(0, id), GiveUp(0, f.releases), RemoveDelete(0);
    var s1 := Apply(net, s, read);
    TwoSteps(net, s, read, give);
    TwoSteps(net, s, read, delete);
    ReadForRemoveStep(net, s, id, st);
    if id !in st.records || st.records[id].status == RUNNING {
      OverStays(net, s1, give, st);
      OverStays(net, s1, delete, st);
    } else {
      GiveUpStep(net, s1, RemoveRead(id), st, f.releases);
      RemoveDeleteStep(net, s1, id, st);
    }
  }
}
