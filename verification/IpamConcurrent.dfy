/**
 Threads of one process running allocator operations at the granularity of lock, load, open and write
 of the temporary file, sync, rename and unlock. Any file operation may fail and the process may crash
 between any two steps. Every such run is linearizable to the atomic table of `Ipam.Atomic`.
 */
module IpamConcurrent {
  import opened Common
  import opened Ipam
  import opened IpamStore

  type Tid = nat

  /** Where a thread is: waiting for the lock, holding it, saving `next`, or about to return. */
  datatype Pc =
    | Idle
    | Want(op: Op)
    | Locked(op: Op)
    | Saving(op: Op, next: Table, reply: Reply, at: SavePoint)
    | Replying(op: Op, reply: Reply)

  /** Progress of a save: nothing done, temporary file truncated, written, synced. */
  datatype SavePoint = Unopened | Opened | Written | Synced

  /** What an observer of one run sees: calls, the moments operations take effect, returns, crashes. */
  datatype Event =
    | Called(t: Tid, op: Op)
    | TookEffect(t: Tid, op: Op, reply: Reply)
    | Returned(t: Tid, reply: Reply)
    | Crashed

  datatype State = State(file: FileData, temp: FileData, lock: Option<Tid>, pcs: seq<Pc>, hist: seq<Event>)

  /** `ok` says whether the file operation of the step succeeds. */
  datatype Step =
    | Call(t: Tid, op: Op)
    | Acquire(t: Tid)
    | Load(t: Tid, ok: bool)
    | OpenTemp(t: Tid, ok: bool)
    | WritePart(t: Tid)
    | WriteTemp(t: Tid, ok: bool)
    | SyncTemp(t: Tid, ok: bool)
    | Rename(t: Tid, ok: bool)
    | Unlock(t: Tid)
    | Crash

  function To(s: State, t: Tid, pc: Pc): State
    requires t < |s.pcs|
  {
    s.(pcs := s.pcs[t := pc])
  }

  /** The operation takes effect now and will answer `reply`. */
  function Settle(s: State, t: Tid, op: Op, reply: Reply): State
    requires t < |s.pcs|
  {
    s.(pcs := s.pcs[t := Replying(op, reply)], hist := s.hist + [TookEffect(t, op, reply)])
  }

  /** One step of the process; a step that the thread is not ready for changes nothing. */
  function Apply(net: Net, s: State, step: Step): State
    requires V4Net(net)
  {
    if step.Crash? then
      s.(lock := None, pcs := seq(|s.pcs|, i => Idle), hist := s.hist + [Crashed])
    else if step.t >= |s.pcs| then s
    else
      var t := step.t;
      match (step, s.pcs[t])
      case (Call(_, op), Idle) => s.(pcs := s.pcs[t := Want(op)], hist := s.hist + [Called(t, op)])
      case (Acquire(_), Want(op)) => if s.lock.None? then To(s, t, Locked(op)).(lock := Some(t)) else s
      case (Load(_, ok), Locked(op)) =>
        if !ok || Decode(s.file).None? then Settle(s, t, op, IoFailed)
        else
          var o := Atomic(net, Decode(s.file).value, op);
          if o.writes then To(s, t, Saving(op, o.table, o.reply, Unopened)) else Settle(s, t, op, o.reply)
      case (OpenTemp(_, ok), Saving(op, next, reply, Unopened)) =>
        if ok then To(s, t, Saving(op, next, reply, Opened)).(temp := Blank) else Settle(s, t, op, IoFailed)
      case (WritePart(_), Saving(_, _, _, Opened)) => s.(temp := Torn)
      case (WriteTemp(_, ok), Saving(op, next, reply, Opened)) =>
        if ok then To(s, t, Saving(op, next, reply, Written)).(temp := Doc(next))
        else Settle(s, t, op, IoFailed).(temp := Torn)
      case (SyncTemp(_, ok), Saving(op, next, reply, Written)) =>
        if ok then To(s, t, Saving(op, next, reply, Synced)) else Settle(s, t, op, IoFailed)
      case (Rename(_, ok), Saving(op, next, reply, Synced)) =>
        if ok then Settle(s, t, op, reply).(file := s.temp, temp := Missing) else Settle(s, t, op, IoFailed)
      case (Unlock(_), Replying(op, reply)) =>
        s.(lock := None, pcs := s.pcs[t := Idle], hist := s.hist + [Returned(t, reply)])
      case _ => s
  }

  /** The state after a sequence of steps of n threads, from a file that loads. */
  function After(net: Net, n: nat, file: FileData, steps: seq<Step>): State
    requires V4Net(net)
  {
    if steps == [] then State(file, Missing, None, seq(n, i => Idle), [])
    else Apply(net, After(net, n, file, steps[..|steps| - 1]), steps[|steps| - 1])
  }

  // ----- the atomic table as a reference

  /** The table left by the effects of a history applied one after another, each answering as the
      atomic operation would or failing without a change; None if some answer is wrong. */
  ghost function Replay(net: Net, table: Table, hist: seq<Event>): Option<Table>
    requires V4Net(net)
  {
    if hist == [] then Some(table)
    else
      var before := Replay(net, table, hist[..|hist| - 1]);
      match hist[|hist| - 1]
      case TookEffect(_, op, reply) =>
        if before.None? || reply == IoFailed then before
        else
          var o := Atomic(net, before.value, op);
          if reply == o.reply then Some(o.table) else None
      case _ => before
  }

  /** The last event that concerns thread t. */
  ghost function LastOf(hist: seq<Event>, t: Tid): Option<Event> {
    if hist == [] then None
    else
      var e := hist[|hist| - 1];
      if e.Crashed? || e.t == t then Some(e) else LastOf(hist[..|hist| - 1], t)
  }

  ghost predicate AtRest(last: Option<Event>) {
    last.None? || last.value.Returned? || last.value.Crashed?
  }

  /** Every operation takes effect at most once, between its call and its return, and returns the
      answer it took effect with. */
  ghost predicate Disciplined(hist: seq<Event>) {
    if hist == [] then true
    else
      var init := hist[..|hist| - 1];
      && Disciplined(init)
      && match hist[|hist| - 1]
         case Called(t, op) => AtRest(LastOf(init, t))
         case TookEffect(t, op, reply) => LastOf(init, t) == Some(Called(t, op))
         case Returned(t, reply) => exists op :: LastOf(init, t) == Some(TookEffect(t, op, reply))
         case Crashed => true
  }

  // ----- the invariant

  ghost predicate PcOk(net: Net, s: State, t: Tid)
    requires V4Net(net) && t < |s.pcs| && Decode(s.file).Some?
  {
    var last := LastOf(s.hist, t);
    match s.pcs[t]
    case Idle => AtRest(last)
    case Want(op) => last == Some(Called(t, op))
    case Locked(op) => last == Some(Called(t, op)) && s.lock == Some(t)
    case Saving(op, next, reply, at) =>
      && last == Some(Called(t, op)) && s.lock == Some(t)
      && Atomic(net, Decode(s.file).value, op) == Outcome(next, reply, true)
      && (at.Written? || at.Synced? ==> s.temp == Doc(next))
    case Replying(op, reply) => last == Some(TookEffect(t, op, reply)) && s.lock == Some(t)
  }

  ghost predicate Inv(net: Net, start: Table, s: State)
    requires V4Net(net)
  {
    && Decode(s.file).Some?
    && Replay(net, start, s.hist) == Decode(s.file)
    && Disciplined(s.hist)
    && forall t :: 0 <= t < |s.pcs| ==> PcOk(net, s, t)
  }

  /** Adding an event of one thread leaves the last events of the others alone. */
  lemma LastOfSnoc(hist: seq<Event>, e: Event, t: Tid)
    ensures LastOf(hist + [e], t) == if e.Crashed? || e.t == t then Some(e) else LastOf(hist, t)
  {
    assert (hist + [e])[..|hist|] == hist;
  }

  lemma HistorySnoc(net: Net, start: Table, hist: seq<Event>, e: Event)
    requires V4Net(net)
    ensures (hist + [e])[..|hist|] == hist
    ensures !e.TookEffect? ==> Replay(net, start, hist + [e]) == Replay(net, start, hist)
  {
    assert (hist + [e])[..|hist|] == hist;
  }

  lemma InvCrash(net: Net, start: Table, s: State)
    requires V4Net(net) && Inv(net, start, s)
    ensures Inv(net, start, Apply(net, s, Crash))
  {
    HistorySnoc(net, start, s.hist, Crashed);
    var s' := Apply(net, s, Crash);
    forall t | 0 <= t < |s'.pcs|
      ensures PcOk(net, s', t)
    {
      LastOfSnoc(s.hist, Crashed, t);
    }
  }

  /** Steps that add no event. */
  lemma InvQuiet(net: Net, start: Table, s: State, step: Step)
    requires V4Net(net) && Inv(net, start, s)
    requires Apply(net, s, step).hist == s.hist
    ensures Inv(net, start, Apply(net, s, step))
  {
    var s' := Apply(net, s, step);
    if s' != s {
      var t0 := step.t;
      assert PcOk(net, s, t0);
      forall t | 0 <= t < |s'.pcs|
        ensures PcOk(net, s', t)
      {
        assert PcOk(net, s, t);
      }
    }
  }

  /** What a step of one thread can do to history and file together: call, take effect with the atomic answer
      and table, take effect with a failure and no change, or return. */
  ghost predicate LoudStep(net: Net, s: State, s': State, t: Tid, e: Event)
    requires V4Net(net)
  {
    && s'.hist == s.hist + [e] && Decode(s.file).Some? && Decode(s'.file).Some?
    && var last := LastOf(s.hist, t);
       match e
       case Called(t', op) => t' == t && AtRest(last) && s'.file == s.file
       case TookEffect(t', op, reply) =>
         && t' == t && last == Some(Called(t, op))
         && var o := Atomic(net, Decode(s.file).value, op);
            (reply == IoFailed && s'.file == s.file) || (reply == o.reply && Decode(s'.file).value == o.table)
       case Returned(t', reply) =>
         t' == t && s'.file == s.file && exists op :: last == Some(TookEffect(t, op, reply))
       case Crashed => false
  }

  lemma LoudIsStep(net: Net, start: Table, s: State, step: Step)
    requires V4Net(net) && Inv(net, start, s) && !step.Crash?
    requires Apply(net, s, step).hist != s.hist
    ensures |s.hist| < |Apply(net, s, step).hist|
    ensures LoudStep(net, s, Apply(net, s, step), step.t, Apply(net, s, step).hist[|s.hist|])
  {
    assert PcOk(net, s, step.t);
  }

  /** The replayed table follows the file. */
  lemma ReplayLoud(net: Net, start: Table, s: State, s': State, t: Tid, e: Event)
    requires V4Net(net) && LoudStep(net, s, s', t, e) && Replay(net, start, s.hist) == Decode(s.file)
    ensures Replay(net, start, s'.hist) == Decode(s'.file)
  {
    assert s'.hist[..|s.hist|] == s.hist;
    AtomicAnswers(net, Decode(s.file).value, e);
  }

  /** The atomic table never answers a failure. */
  lemma AtomicAnswers(net: Net, table: Table, e: Event)
    requires V4Net(net)
    ensures e.TookEffect? ==> Atomic(net, table, e.op).reply != IoFailed
  {
  }

  lemma DisciplinedLoud(net: Net, s: State, s': State, t: Tid, e: Event)
    requires V4Net(net) && LoudStep(net, s, s', t, e) && Disciplined(s.hist)
    ensures Disciplined(s'.hist)
  {
    assert s'.hist[..|s.hist|] == s.hist;
  }

  /** The event a step of thread t adds is the one its place in its operation calls for. */
  lemma LoudEvent(net: Net, start: Table, s: State, step: Step)
    requires V4Net(net) && Inv(net, start, s) && !step.Crash?
    requires Apply(net, s, step).hist != s.hist
    ensures
      var s' := Apply(net, s, step);
      && Decode(s'.file).Some?
      && Replay(net, start, s'.hist) == Decode(s'.file)
      && Disciplined(s'.hist)
  {
    var s' := Apply(net, s, step);
    LoudIsStep(net, start, s, step);
    ReplayLoud(net, start, s, s', step.t, s'.hist[|s.hist|]);
    DisciplinedLoud(net, s, s', step.t, s'.hist[|s.hist|]);
  }

  lemma LoudPcs(net: Net, start: Table, s: State, step: Step, t: Tid)
    requires V4Net(net) && Inv(net, start, s) && !step.Crash? && t < |s.pcs|
    requires Apply(net, s, step).hist != s.hist
    ensures Decode(Apply(net, s, step).file).Some?
    ensures PcOk(net, Apply(net, s, step), t)
  {
    var s' := Apply(net, s, step);
    assert PcOk(net, s, step.t);
    var e := s'.hist[|s.hist|];
    assert s'.hist == s.hist + [e] && e.t == step.t;
    LastOfSnoc(s.hist, e, t);
    assert PcOk(net, s, t);
  }

  /** Steps that add an event of the thread taking the step. */
  lemma InvLoud(net: Net, start: Table, s: State, step: Step)
    requires V4Net(net) && Inv(net, start, s) && !step.Crash?
    requires Apply(net, s, step).hist != s.hist
    ensures Inv(net, start, Apply(net, s, step))
  {
    LoudEvent(net, start, s, step);
    forall t | 0 <= t < |Apply(net, s, step).pcs|
      ensures PcOk(net, Apply(net, s, step), t)
    {
      LoudPcs(net, start, s, step, t);
    }
  }

  lemma {:induction false} InvAlways(net: Net, n: nat, file: FileData, steps: seq<Step>)
    requires V4Net(net) && Decode(file).Some?
    ensures Inv(net, Decode(file).value, After(net, n, file, steps))
  {
    if steps != [] {
      var init, step := steps[..|steps| - 1], steps[|steps| - 1];
      InvAlways(net, n, file, init);
      var s, start := After(net, n, file, init), Decode(file).value;
      if step.Crash? {
        InvCrash(net, start, s);
      } else if Apply(net, s, step).hist == s.hist {
        InvQuiet(net, start, s, step);
      } else {
        InvLoud(net, start, s, step);
      }
    }
  }

  /** A file operation fails in this step. */
  predicate Fails(step: Step) {
    match step
    case Load(_, ok) => !ok
    case OpenTemp(_, ok) => !ok
    case WriteTemp(_, ok) => !ok
    case SyncTemp(_, ok) => !ok
    case Rename(_, ok) => !ok
    case _ => false
  }

  function FailedSteps(steps: seq<Step>): nat {
    if steps == [] then 0
    else FailedSteps(steps[..|steps| - 1]) + if Fails(steps[|steps| - 1]) then 1 else 0
  }

  predicate GaveUp(e: Event) {
    e.TookEffect? && e.reply == IoFailed
  }

  /** The operations of a history that answered with a failure. */
  function Failures(hist: seq<Event>): nat {
    if hist == [] then 0
    else Failures(hist[..|hist| - 1]) + if GaveUp(hist[|hist| - 1]) then 1 else 0
  }

  /** An operation gives up only in a step whose file operation fails. */
  lemma GaveUpMeansFails(net: Net, start: Table, s: State, step: Step)
    requires V4Net(net) && Inv(net, start, s)
    ensures Failures(Apply(net, s, step).hist) <= Failures(s.hist) + if Fails(step) then 1 else 0
  {
    var s' := Apply(net, s, step);
    if s'.hist != s.hist {
      assert step.Crash? || PcOk(net, s, step.t);
      assert s'.hist == s.hist + [s'.hist[|s.hist|]];
      assert GaveUp(s'.hist[|s.hist|]) ==> Fails(step);
      assert s'.hist[..|s'.hist| - 1] == s.hist;
    }
  }

  /** No more operations fail than file operations did, so without file failures each gives the atomic answer. */
  lemma {:induction false} FailuresAreFileFailures(net: Net, n: nat, file: FileData, steps: seq<Step>)
    requires V4Net(net) && Decode(file).Some?
    ensures Failures(After(net, n, file, steps).hist) <= FailedSteps(steps)
  {
    if steps != [] {
      var init := steps[..|steps| - 1];
      FailuresAreFileFailures(net, n, file, init);
      InvAlways(net, n, file, init);
      GaveUpMeansFails(net, Decode(file).value, After(net, n, file, init), steps[|steps| - 1]);
    }
  }

  /** Every interleaving, with any failures and any crashes, refines the atomic table: the operations
      take effect one at a time between call and return, answer what the atomic table answers (or fail
      without effect, no more of them than file operations failed), and the file always holds exactly the
      table those effects leave. */
  lemma EveryRunIsLinearizable(net: Net, n: nat, file: FileData, steps: seq<Step>)
    requires V4Net(net) && Decode(file).Some?
    ensures
      var s := After(net, n, file, steps);
      && Disciplined(s.hist)
      && Decode(s.file).Some?
      && Replay(net, Decode(file).value, s.hist) == Decode(s.file)
      && Failures(s.hist) <= FailedSteps(steps)
  {
    InvAlways(net, n, file, steps);
    FailuresAreFileFailures(net, n, file, steps);
  }

  lemma {:induction false} ReplayKeepsTableOk(net: Net, start: Table, hist: seq<Event>)
    requires V4Net(net) && TableOk(net, start)
    ensures Replay(net, start, hist).Some? ==> TableOk(net, Replay(net, start, hist).value)
  {
    if hist != [] {
      var init, e := hist[..|hist| - 1], hist[|hist| - 1];
      ReplayKeepsTableOk(net, start, init);
      if Replay(net, start, init).Some? && e.TookEffect? {
        TableOkStep(net, Replay(net, start, init).value, e.op);
      }
    }
  }

  /** So no interleaving, failure or crash ever gives two containers one address. */
  lemma EveryRunKeepsFileOk(net: Net, n: nat, steps: seq<Step>)
    requires V4Net(net)
    ensures Decode(After(net, n, Missing, steps).file).Some?
    ensures TableOk(net, Decode(After(net, n, Missing, steps).file).value)
  {
    EveryRunIsLinearizable(net, n, Missing, steps);
    ReplayKeepsTableOk(net, map[], After(net, n, Missing, steps).hist);
  }

  /** At most one thread is past the lock. */
  lemma MutualExclusion(net: Net, n: nat, file: FileData, steps: seq<Step>, a: Tid, b: Tid)
    requires V4Net(net) && Decode(file).Some?
    requires
      var pcs := After(net, n, file, steps).pcs;
      a < |pcs| && b < |pcs| && !pcs[a].Idle? && !pcs[a].Want? && !pcs[b].Idle? && !pcs[b].Want?
    ensures a == b
  {
    InvAlways(net, n, file, steps);
    var s := After(net, n, file, steps);
    assert PcOk(net, s, a) && PcOk(net, s, b);
  }

  // ----- crashes

  /** Thread t is inside the operation it entered when the table was `before`. */
  ghost predicate InFlight(net: Net, s: State, t: Tid, op: Op, before: Table)
    requires V4Net(net)
  {
    && t < |s.pcs| && Decode(s.file).Some? && s.lock == Some(t)
    && var now := Decode(s.file).value;
       match s.pcs[t]
       case Locked(o) => o == op && now == before
       case Saving(o, _, _, _) => o == op && now == before
       case Replying(o, _) => o == op && (now == before || now == Atomic(net, before, op).table)
       case _ => false
  }

  lemma InFlightStep(net: Net, start: Table, s: State, step: Step, t: Tid, op: Op, before: Table)
    requires V4Net(net) && Inv(net, start, s) && InFlight(net, s, t, op, before)
    requires !step.Crash? && step != Unlock(t)
    ensures InFlight(net, Apply(net, s, step), t, op, before)
  {
    assert PcOk(net, s, t);
    if step.t < |s.pcs| {
      assert PcOk(net, s, step.t);
    }
  }

  /** A crash at any point of an operation finds the file holding the table from before the operation
      or the whole table from after it, never anything else. */
  lemma {:induction false} CrashBeforeOrAfter(net: Net, n: nat, file: FileData, steps: seq<Step>, t: Tid,
                                               op: Op, during: seq<Step>)
    requires V4Net(net) && Decode(file).Some?
    requires
      var entered := After(net, n, file, steps);
      t < |entered.pcs| && entered.pcs[t] == Locked(op)
    requires Crash !in during && Unlock(t) !in during
    ensures
      var before := Decode(After(net, n, file, steps).file);
      var crashed := After(net, n, file, steps + during + [Crash]);
      && before.Some? && Decode(crashed.file).Some?
      && Decode(crashed.file).value in {before.value, Atomic(net, before.value, op).table}
  {
    InvAlways(net, n, file, steps);
    var entered := After(net, n, file, steps);
    assert PcOk(net, entered, t);
    InFlightRun(net, n, file, steps, t, op, Decode(entered.file).value, during);
    var all := steps + during + [Crash];
    assert all[..|all| - 1] == steps + during;
  }

  lemma {:induction false} InFlightRun(net: Net, n: nat, file: FileData, steps: seq<Step>, t: Tid,
                                       op: Op, before: Table, during: seq<Step>)
    requires V4Net(net) && Decode(file).Some?
    requires InFlight(net, After(net, n, file, steps), t, op, before)
    requires Crash !in during && Unlock(t) !in during
    ensures InFlight(net, After(net, n, file, steps + during), t, op, before)
  {
    if during == [] {
      assert steps + during == steps;
    } else {
      var m := |during| - 1;
      InFlightRun(net, n, file, steps, t, op, before, during[..m]);
      InvAlways(net, n, file, steps + during[..m]);
      InFlightStep(net, Decode(file).value, After(net, n, file, steps + during[..m]), during[m], t, op, before);
      assert (steps + during)[..|steps + during| - 1] == steps + during[..m];
    }
  }

  // ----- one thread without interruption

  /** The steps of a save; after a failure the rest change nothing. */
  ghost function SaveRun(net: Net, s: State, t: Tid, fault: SaveFault): State
    requires V4Net(net)
  {
    var afterOpen := Apply(net, s, OpenTemp(t, !fault.OpenFails?));
    var written := Apply(net, afterOpen, WriteTemp(t, !fault.EncodeFails?));
    var synced := Apply(net, written, SyncTemp(t, !fault.SyncFails?));
    Apply(net, synced, Rename(t, !fault.RenameFails?))
  }

  lemma SaveAlone(net: Net, s: State, t: Tid, op: Op, next: Table, reply: Reply, fault: SaveFault)
    requires V4Net(net) && t < |s.pcs| && s.pcs[t] == Saving(op, next, reply, Unopened)
    ensures
      var d, r := Saved(Disk(s.file, s.temp), next, fault), if fault.Intact? then reply else IoFailed;
      SaveRun(net, s, t, fault) == Settle(s, t, op, r).(file := d.file, temp := d.temp)
  {
    var s1 := Apply(net, s, OpenTemp(t, !fault.OpenFails?));
    var s2 := Apply(net, s1, WriteTemp(t, !fault.EncodeFails?));
    assert !fault.OpenFails? ==> s1.pcs[t] == Saving(op, next, reply, Opened);
    assert !fault.OpenFails? && !fault.EncodeFails? ==> s2.pcs[t] == Saving(op, next, reply, Written);
  }

  /** A settled thread is past the save: its steps no longer concern it. */
  lemma SaveIsOver(net: Net, s: State, t: Tid, fault: SaveFault)
    requires V4Net(net) && t < |s.pcs| && s.pcs[t].Replying?
    ensures SaveRun(net, s, t, fault) == s
  {
  }

  /** The part of a call under the lock. */
  lemma LockedAlone(net: Net, s: State, t: Tid, op: Op, loads: bool, fault: SaveFault) returns (d: Disk, reply: Reply)
    requires V4Net(net) && t < |s.pcs| && s.pcs[t] == Locked(op)
    ensures Performed(net, Disk(s.file, s.temp), op, loads, fault, d, reply)
    ensures SaveRun(net, Apply(net, s, Load(t, loads)), t, fault) == Settle(s, t, op, reply).(file := d.file, temp := d.temp)
  {
    var entered := Apply(net, s, Load(t, loads));
    if entered.pcs[t].Saving? {
      var o := Atomic(net, Decode(s.file).value, op);
      SaveAlone(net, entered, t, op, o.table, o.reply, fault);
      d, reply := Saved(Disk(s.file, s.temp), o.table, fault), if fault.Intact? then o.reply else IoFailed;
    } else {
      SaveIsOver(net, entered, t, fault);
      d, reply := Disk(s.file, s.temp), entered.pcs[t].reply;
    }
  }

  /** One whole call of a thread: enter and load, save if there is something to save, return. */
  ghost function CallAlone(net: Net, s: State, t: Tid, op: Op, loads: bool, fault: SaveFault): State
    requires V4Net(net)
  {
    var locked := Apply(net, Apply(net, s, Call(t, op)), Acquire(t));
    Apply(net, SaveRun(net, Apply(net, locked, Load(t, loads)), t, fault), Unlock(t))
  }

  /** The calls as `IpamStore` performs them are a thread's steps without interruption: from a free lock, the
      files and the answer are those of `Performed`, and lock and threads are as before. */
  lemma AloneIsUninterrupted(net: Net, s: State, t: Tid, op: Op, loads: bool, fault: SaveFault)
    requires V4Net(net) && t < |s.pcs| && s.pcs[t] == Idle && s.lock == None
    ensures
      exists d, reply ::
        && Performed(net, Disk(s.file, s.temp), op, loads, fault, d, reply)
        && CallAlone(net, s, t, op, loads, fault)
           == s.(file := d.file, temp := d.temp,
                 hist := s.hist + [Called(t, op), TookEffect(t, op, reply), Returned(t, reply)])
  {
    var called := Apply(net, s, Call(t, op));
    var locked := Apply(net, called, Acquire(t));
    assert called.pcs[t] == Want(op) && locked.pcs[t] == Locked(op);
    var d, reply := LockedAlone(net, locked, t, op, loads, fault);
    var saved := Settle(locked, t, op, reply).(file := d.file, temp := d.temp);
    assert saved.pcs[t := Idle] == s.pcs;
    assert saved.hist + [Returned(t, reply)]
        == s.hist + [Called(t, op), TookEffect(t, op, reply), Returned(t, reply)];
  }
}
