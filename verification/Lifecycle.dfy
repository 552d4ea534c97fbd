/**
 Containers through run, create, start, stop, adjust and remove, as operations that overlap freely. Each
 operation holds its own in-memory copy of a container's record, may fail at its failure points, and the
 operations that took an address give it back on every way out. One allocator call and one record write
 are one step each; a container id drawn at random is taken to be new.
 */
module Lifecycle {
  import opened Common
  import opened Ipv4
  import opened Ipam
  import opened Images

  const RUNNING := "running"
  const STOPPED := "stopped"
  const CREATED := "created"
  const STORAGE := "/var/lib/gocker/containers/"
  const INVALID_LIMIT := -1

  datatype Limits = Limits(memory: int, pids: int, cpu: int)

  datatype RunRequest = RunRequest(imageName: string, imageTag: string, name: string, command: string,
                                   requestedIP: Requested, limits: Limits)

  /** A container's stored record, and the in-memory copies of it. */
  datatype Info = Info(id: Id, pid: int, name: string, command: string, status: string, createdAt: nat,
                       image: string, mountPoint: string, requestedIP: Requested, ipAddress: Option<Bytes>,
                       finishedAt: Option<nat>, limits: Limits)

  /** The part of a record that is fixed when the container is created. */
  datatype Identity = Identity(id: Id, name: string, command: string, createdAt: nat, image: string,
                               mountPoint: string, requestedIP: Requested)

  function IdentityOf(i: Info): Identity {
    Identity(i.id, i.name, i.command, i.createdAt, i.image, i.mountPoint, i.requestedIP)
  }

  /** Where an operation is, with its copy of the record. An exiting run or start has only its address left to
      give back. */
  datatype Proc =
    | Gone
    | RunBegun(id: Id, req: RunRequest)
    | RunHolding(info: Info)
    | RunCreated(info: Info)
    | RunWaiting(info: Info)
    | Exiting(id: Id)
    | CreateBegun(id: Id, req: RunRequest)
    | CreateMade(info: Info)
    | CreateWaiting(info: Info)
    | StartRead(info: Info)
    | StartHolding(info: Info)
    | StartWaiting(info: Info)
    | StopRead(info: Info)
    | StopWritten(id: Id)
    | AdjustRead(info: Info, limits: Limits)
    | RemoveRead(id: Id)

  /** `ok` is whether the write or allocation of the step succeeds, `freed` whether the release does. */
  datatype Step =
    | BeginRun(p: nat, id: Id, req: RunRequest)
    | RunAllocate(p: nat, ok: bool, now: nat)
    | WriteFirst(p: nat, ok: bool, now: nat)
    | BeginCreate(p: nat, id: Id, req: RunRequest)
    | MarkRunning(p: nat, pid: int, ok: bool)
    | MarkExited(p: nat, ok: bool, now: nat)
    | GiveUp(p: nat, freed: bool)
    | ReadForStart(p: nat, id: Id)
    | StartAllocate(p: nat, ok: bool)
    | ReadForStop(p: nat, id: Id)
    | StopWrite(p: nat, ok: bool, now: nat)
    | StopCleanup(p: nat, freed: bool)
    | ReadForAdjust(p: nat, id: Id, limits: Limits)
    | AdjustWrite(p: nat, ok: bool)
    | ReadForRemove(p: nat, id: Id)
    | RemoveDelete(p: nat)

  /** The stored records, the allocation table and the operations; then, for stating what happened, the
      ids drawn, the identity each container was created with, and the ids whose last release failed. */
  datatype State = State(records: map<Id, Info>, table: Table, procs: seq<Proc>,
                         drawn: set<Id>, born: map<Id, Identity>, stuck: set<Id>)

  // ----- one step

  datatype RecordChange = NoWrite | First(info: Info) | Overwrite(info: Info) | Delete(id: Id)
  datatype TableChange = Keep | Took(id: Id, req: Requested) | Freed(id: Id) | Stuck(id: Id)

  /** Everything one step changes. */
  datatype Change = Change(next: Proc, record: RecordChange, table: TableChange, birth: Option<Info>, draw: Option<Id>)

  function Quiet(next: Proc): Change {
    Change(next, NoWrite, Keep, None, None)
  }

  function NewInfo(id: Id, req: RunRequest, now: nat, requested: Requested, ip: Option<Bytes>): Info {
    Info(id, 0, if req.name == "" then id else req.name, req.command, CREATED, now,
         Format(req.imageName, req.imageTag), STORAGE + id + "/rootfs", requested, ip, None, req.limits)
  }

  function WriteIf(ok: bool, i: Info): RecordChange {
    if ok then Overwrite(i) else NoWrite
  }

  function Release(id: Id, freed: bool): TableChange {
    if freed then Freed(id) else Stuck(id)
  }

  function AsRunning(i: Info, pid: int, first: bool): Info {
    i.(pid := pid, status := RUNNING, finishedAt := if first then i.finishedAt else None)
  }

  /** What a later start asks for: the address requested at creation, else the one held last. */
  function Desired(i: Info): Requested {
    if !i.requestedIP.Unspecified? then i.requestedIP
    else match i.ipAddress
      case None => Unspecified
      case Some(ip) => Parsed(ip)
  }

  /** A limit of -1 keeps the stored one. */
  function MergeLimits(asked: Limits, stored: Limits): Limits {
    Limits(if asked.memory == INVALID_LIMIT then stored.memory else asked.memory,
           if asked.pids == INVALID_LIMIT then stored.pids else asked.pids,
           if asked.cpu == INVALID_LIMIT then stored.cpu else asked.cpu)
  }

  /** Making a new container: drawing an id, taking an address, writing the first record. */
  function PlanNew(net: Net, s: State, step: Step, proc: Proc): Option<Change>
    requires V4Net(net)
  {
    match (step, proc)
    case (BeginRun(_, id, req), Gone) =>
      if id in s.drawn then None else Some(Quiet(RunBegun(id, req)).(draw := Some(id)))
    case (RunAllocate(_, ok, now), RunBegun(id, req)) =>
      var reply := Atomic(net, s.table, AllocateOp(id, req.requestedIP)).reply;
      if !ok || !reply.Address? then Some(Quiet(Gone))
      else
        var info := NewInfo(id, req, now, req.requestedIP, Some(reply.ip));
        Some(Change(RunHolding(info), NoWrite, Took(id, req.requestedIP), Some(info), None))
    case (WriteFirst(_, ok, _), RunHolding(info)) =>
      if ok then Some(Quiet(RunCreated(info)).(record := First(info))) else Some(Quiet(Exiting(info.id)))
    case (BeginCreate(_, id, req), Gone) =>
      if id in s.drawn then None else Some(Quiet(CreateBegun(id, req)).(draw := Some(id)))
    case (WriteFirst(_, ok, now), CreateBegun(id, req)) =>
      var info := NewInfo(id, req, now, Unspecified, None);
      if ok then Some(Change(CreateMade(info), First(info), Keep, Some(info), None)) else Some(Quiet(Gone))
    case _ => None
  }

  /** The child process: marked running, marked exited, or given up on the way. Giving up releases an address
      that is held, and so ends an exiting run or start. */
  function PlanChild(step: Step, proc: Proc): Option<Change> {
    match (step, proc)
    case (MarkRunning(_, pid, ok), RunCreated(info)) =>
      var i := AsRunning(info, pid, true);
      if pid == 0 then None else Some(Quiet(RunWaiting(i)).(record := WriteIf(ok, i)))
    case (MarkRunning(_, pid, ok), CreateMade(info)) =>
      var i := AsRunning(info, pid, true);
      if pid == 0 then None else Some(Quiet(CreateWaiting(i)).(record := WriteIf(ok, i)))
    case (MarkRunning(_, pid, ok), StartHolding(info)) =>
      var i := AsRunning(info, pid, false);
      if pid == 0 then None else Some(Quiet(StartWaiting(i)).(record := WriteIf(ok, i)))
    case (MarkExited(_, ok, _), RunWaiting(info)) =>
      var i := info.(pid := 0, status := STOPPED);
      Some(Quiet(Exiting(info.id)).(record := WriteIf(ok, i)))
    case (MarkExited(_, ok, now), StartWaiting(info)) =>
      var i := info.(pid := 0, status := STOPPED, finishedAt := Some(now));
      Some(Quiet(Exiting(info.id)).(record := WriteIf(ok, i)))
    case (MarkExited(_, ok, now), CreateWaiting(info)) =>
      var i := info.(pid := 0, status := STOPPED, finishedAt := Some(now));
      Some(Quiet(Gone).(record := WriteIf(ok, i)))
    case (GiveUp(_, freed), Exiting(id)) => Some(Quiet(Gone).(table := Release(id, freed)))
    case (GiveUp(_, freed), RunCreated(info)) => Some(Quiet(Gone).(table := Release(info.id, freed)))
    case (GiveUp(_, freed), StartHolding(info)) => Some(Quiet(Gone).(table := Release(info.id, freed)))
    case (GiveUp(_, freed), StartWaiting(info)) => Some(Quiet(Gone).(table := Release(info.id, freed)))
    case (GiveUp(_, _), CreateMade(_)) => Some(Quiet(Gone))
    case (GiveUp(_, _), StartRead(_)) => Some(Quiet(Gone))
    case (GiveUp(_, _), StopRead(_)) => Some(Quiet(Gone))
    case (GiveUp(_, _), AdjustRead(_, _)) => Some(Quiet(Gone))
    case (GiveUp(_, _), RemoveRead(_)) => Some(Quiet(Gone))
    case _ => None
  }

  /** Starting an existing container: its own copy of the record, then an address. */
  function PlanStart(net: Net, s: State, step: Step, proc: Proc): Option<Change>
    requires V4Net(net)
  {
    match (step, proc)
    case (ReadForStart(_, id), Gone) =>
      if id in s.records && s.records[id].status in {STOPPED, CREATED} then Some(Quiet(StartRead(s.records[id]))) else None
    case (StartAllocate(_, ok), StartRead(info)) =>
      var reply := Atomic(net, s.table, AllocateOp(info.id, Desired(info))).reply;
      if !ok || !reply.Address? then Some(Quiet(Gone))
      else Some(Quiet(StartHolding(info.(ipAddress := Some(reply.ip)))).(table := Took(info.id, Desired(info))))
    case _ => None
  }

  /** Stop, adjust and remove: each reads its own copy of the record first. */
  function PlanExisting(s: State, step: Step, proc: Proc): Option<Change> {
    match (step, proc)
    case (ReadForStop(_, id), Gone) =>
      if id in s.records && s.records[id].status == RUNNING then Some(Quiet(StopRead(s.records[id]))) else None
    case (StopWrite(_, ok, now), StopRead(info)) =>
      var i := info.(status := STOPPED, pid := 0, finishedAt := Some(now));
      if ok then Some(Quiet(StopWritten(info.id)).(record := Overwrite(i))) else Some(Quiet(Gone))
    case (StopCleanup(_, freed), StopWritten(id)) => Some(Quiet(Gone).(table := Release(id, freed)))
    case (ReadForAdjust(_, id, limits), Gone) =>
      if id in s.records && s.records[id].status == RUNNING then
        Some(Quiet(AdjustRead(s.records[id], MergeLimits(limits, s.records[id].limits))))
      else None
    case (AdjustWrite(_, ok), AdjustRead(info, limits)) =>
      Some(Quiet(Gone).(record := WriteIf(ok, info.(limits := limits))))
    case (ReadForRemove(_, id), Gone) =>
      if id in s.records && s.records[id].status != RUNNING then Some(Quiet(RemoveRead(id))) else None
    case (RemoveDelete(_), RemoveRead(id)) => Some(Quiet(Gone).(record := Delete(id)))
    case _ => None
  }

  /** What a step changes, if the operation is ready for it. */
  function Plan(net: Net, s: State, step: Step): Option<Change>
    requires V4Net(net)
  {
    if step.p >= |s.procs| then None
    else if step.BeginRun? || step.RunAllocate? || step.WriteFirst? || step.BeginCreate? then
      PlanNew(net, s, step, s.procs[step.p])
    else if step.MarkRunning? || step.MarkExited? || step.GiveUp? then PlanChild(step, s.procs[step.p])
    else if step.ReadForStart? || step.StartAllocate? then PlanStart(net, s, step, s.procs[step.p])
    else PlanExisting(s, step, s.procs[step.p])
  }

  /** Writing a record needs the container's directory, which removal deletes for good. */
  function Records(records: map<Id, Info>, c: RecordChange): map<Id, Info> {
    match c
    case NoWrite => records
    case First(i) => records[i.id := i]
    case Overwrite(i) => if i.id in records then records[i.id := i] else records
    case Delete(id) => records - {id}
  }

  function Tables(net: Net, table: Table, c: TableChange): Table
    requires V4Net(net)
  {
    match c
    case Keep => table
    case Took(id, req) => Atomic(net, table, AllocateOp(id, req)).table
    case Freed(id) => Atomic(net, table, ReleaseOp(id)).table
    case Stuck(_) => table
  }

  function Commit(net: Net, s: State, p: nat, c: Change): State
    requires V4Net(net) && p < |s.procs|
  {
    State(Records(s.records, c.record), Tables(net, s.table, c.table), s.procs[p := c.next],
          if c.draw.Some? then s.drawn + {c.draw.value} else s.drawn,
          if c.birth.Some? then s.born[c.birth.value.id := IdentityOf(c.birth.value)] else s.born,
          match c.table
          case Stuck(id) => s.stuck + {id}
          case Freed(id) => s.stuck - {id}
          case _ => s.stuck)
  }

  function CommitIf(net: Net, s: State, p: nat, c: Option<Change>): State
    requires V4Net(net)
  {
    if c.None? || p >= |s.procs| then s else Commit(net, s, p, c.value)
  }

  function Apply(net: Net, s: State, step: Step): State
    requires V4Net(net)
  {
    CommitIf(net, s, step.p, Plan(net, s, step))
  }

  /** The state after a sequence of steps of n operations, from nothing. */
  function After(net: Net, n: nat, steps: seq<Step>): State
    requires V4Net(net)
  {
    if steps == [] then State(map[], map[], seq(n, i => Gone), {}, map[], {})
    else Apply(net, After(net, n, steps[..|steps| - 1]), steps[|steps| - 1])
  }

  // ----- the invariant

  /** The id whose address an operation will release on its way out. */
  function Holds(p: Proc): Option<Id> {
    match p
    case RunHolding(i) => Some(i.id)
    case RunCreated(i) => Some(i.id)
    case RunWaiting(i) => Some(i.id)
    case StartHolding(i) => Some(i.id)
    case StartWaiting(i) => Some(i.id)
    case Exiting(id) => Some(id)
    case _ => None
  }

  /** The id of an operation that has not yet made its record. */
  function Begun(p: Proc): Option<Id> {
    match p
    case RunBegun(id, _) => Some(id)
    case CreateBegun(id, _) => Some(id)
    case _ => None
  }

  /** A known status, and a process id exactly while running. */
  ghost predicate StatusOk(i: Info) {
    i.status in {RUNNING, STOPPED, CREATED} && (i.pid != 0 <==> i.status == RUNNING)
  }

  ghost predicate InfoOk(born: map<Id, Identity>, i: Info) {
    StatusOk(i) && i.id in born && born[i.id] == IdentityOf(i)
  }

  ghost predicate ProcOk(born: map<Id, Identity>, drawn: set<Id>, p: Proc) {
    match p
    case Gone => true
    case RunBegun(id, _) => id in drawn && id !in born
    case CreateBegun(id, _) => id in drawn && id !in born
    case Exiting(_) => true
    case StopWritten(_) => true
    case RemoveRead(_) => true
    case RunHolding(i) => InfoOk(born, i) && i.status == CREATED
    case RunCreated(i) => InfoOk(born, i) && i.status == CREATED
    case CreateMade(i) => InfoOk(born, i) && i.status == CREATED
    case StartRead(i) => InfoOk(born, i)
    case StartHolding(i) => InfoOk(born, i)
    case RunWaiting(i) => InfoOk(born, i)
    case CreateWaiting(i) => InfoOk(born, i)
    case StartWaiting(i) => InfoOk(born, i)
    case StopRead(i) => InfoOk(born, i)
    case AdjustRead(i, _) => InfoOk(born, i)
  }

  ghost predicate Held(s: State, id: Id) {
    id in s.stuck || exists p :: 0 <= p < |s.procs| && Holds(s.procs[p]) == Some(id)
  }

  ghost predicate Inv(net: Net, s: State)
    requires V4Net(net)
  {
    && TableOk(net, s.table)
    && (forall id :: id in s.table ==> Held(s, id))
    && (forall id :: id in s.records ==> s.records[id].id == id && InfoOk(s.born, s.records[id]))
    && (forall p :: 0 <= p < |s.procs| ==> ProcOk(s.born, s.drawn, s.procs[p]))
    && (forall p, q :: 0 <= p < q < |s.procs| && Begun(s.procs[p]).Some? ==> Begun(s.procs[p]) != Begun(s.procs[q]))
    && s.born.Keys <= s.drawn
  }

  /** What a change must satisfy to keep the invariant. */
  ghost predicate GoodChange(net: Net, s: State, proc: Proc, c: Change)
    requires V4Net(net)
  {
    var born := if c.birth.Some? then s.born[c.birth.value.id := IdentityOf(c.birth.value)] else s.born;
    && (c.birth.Some? ==> Begun(proc) == Some(c.birth.value.id))
    && (c.draw.Some? ==> c.draw.value !in s.drawn && c.birth.None?)
    && (Begun(c.next).Some? ==> c.draw == Begun(c.next))
    && ProcOk(born, if c.draw.Some? then s.drawn + {c.draw.value} else s.drawn, c.next)
    && (c.record.First? || c.record.Overwrite? ==> InfoOk(born, c.record.info))
    && match c.table
       case Keep => Holds(c.next) == Holds(proc)
       case Took(id, req) => Holds(proc).None? && Holds(c.next) == Some(id)
       case Freed(id) => Holds(proc) in {None, Some(id)} && Holds(c.next).None?
       case Stuck(id) => Holds(proc) in {None, Some(id)} && Holds(c.next).None?
  }

  lemma PlanNewIsGood(net: Net, s: State, step: Step, proc: Proc)
    requires V4Net(net) && ProcOk(s.born, s.drawn, proc) && s.born.Keys <= s.drawn
    requires PlanNew(net, s, step, proc).Some?
    ensures GoodChange(net, s, proc, PlanNew(net, s, step, proc).value)
  {
  }

  lemma PlanChildIsGood(net: Net, s: State, step: Step, proc: Proc)
    requires V4Net(net) && ProcOk(s.born, s.drawn, proc)
    requires PlanChild(step, proc).Some?
    ensures GoodChange(net, s, proc, PlanChild(step, proc).value)
  {
  }

  lemma PlanStartIsGood(net: Net, s: State, step: Step, proc: Proc)
    requires V4Net(net) && ProcOk(s.born, s.drawn, proc)
    requires forall id :: id in s.records ==> InfoOk(s.born, s.records[id])
    requires PlanStart(net, s, step, proc).Some?
    ensures GoodChange(net, s, proc, PlanStart(net, s, step, proc).value)
  {
  }

  lemma PlanExistingIsGood(net: Net, s: State, step: Step, proc: Proc)
    requires V4Net(net) && ProcOk(s.born, s.drawn, proc)
    requires forall id :: id in s.records ==> InfoOk(s.born, s.records[id])
    requires PlanExisting(s, step, proc).Some?
    ensures GoodChange(net, s, proc, PlanExisting(s, step, proc).value)
  {
  }

  lemma PlanIsGood(net: Net, s: State, step: Step)
    requires V4Net(net) && Inv(net, s)
    requires step.p < |s.procs| && Plan(net, s, step).Some?
    ensures GoodChange(net, s, s.procs[step.p], Plan(net, s, step).value)
  {
    var proc := s.procs[step.p];
    assert ProcOk(s.born, s.drawn, proc);
    if step.BeginRun? || step.RunAllocate? || step.WriteFirst? || step.BeginCreate? {
      PlanNewIsGood(net, s, step, proc);
    } else if step.MarkRunning? || step.MarkExited? || step.GiveUp? {
      PlanChildIsGood(net, s, step, proc);
    } else if step.ReadForStart? || step.StartAllocate? {
      PlanStartIsGood(net, s, step, proc);
    } else {
      PlanExistingIsGood(net, s, step, proc);
    }
  }

  /** Births are new, so what was known of other containers stays. */
  lemma BirthKeeps(net: Net, s: State, p: nat, c: Change)
    requires V4Net(net) && Inv(net, s) && p < |s.procs| && GoodChange(net, s, s.procs[p], c)
    ensures
      var s' := Commit(net, s, p, c);
      && (forall id :: id in s.born ==> id in s'.born && s'.born[id] == s.born[id])
      && (forall q :: 0 <= q < |s'.procs| ==> ProcOk(s'.born, s'.drawn, s'.procs[q]))
      && s'.born.Keys <= s'.drawn
  {
    var s' := Commit(net, s, p, c);
    assert ProcOk(s.born, s.drawn, s.procs[p]);
    forall q | 0 <= q < |s'.procs|
      ensures ProcOk(s'.born, s'.drawn, s'.procs[q])
    {
      if q != p {
        assert ProcOk(s.born, s.drawn, s.procs[q]);
        if c.birth.Some? && p < q {
          assert Begun(s.procs[p]) != Begun(s.procs[q]);
        }
      }
    }
  }

  lemma BegunStayDistinct(net: Net, s: State, p: nat, c: Change)
    requires V4Net(net) && Inv(net, s) && p < |s.procs| && GoodChange(net, s, s.procs[p], c)
    ensures
      var procs := Commit(net, s, p, c).procs;
      forall a, b :: 0 <= a < b < |procs| && Begun(procs[a]).Some? ==> Begun(procs[a]) != Begun(procs[b])
  {
    var procs := Commit(net, s, p, c).procs;
    forall a, b | 0 <= a < b < |procs| && Begun(procs[a]).Some?
      ensures Begun(procs[a]) != Begun(procs[b])
    {
      assert a != p ==> ProcOk(s.born, s.drawn, s.procs[a]);
      assert b != p ==> ProcOk(s.born, s.drawn, s.procs[b]);
    }
  }

  lemma HeldStays(net: Net, s: State, p: nat, c: Change, id: Id)
    requires V4Net(net) && Inv(net, s) && p < |s.procs| && GoodChange(net, s, s.procs[p], c)
    requires id in Commit(net, s, p, c).table
    ensures Held(Commit(net, s, p, c), id)
  {
    var s' := Commit(net, s, p, c);
    assert Holds(s'.procs[p]) == Holds(c.next);
    if id in s.table && id !in s.stuck {
      assert Held(s, id);
      var q :| 0 <= q < |s.procs| && Holds(s.procs[q]) == Some(id);
      assert q != p ==> Holds(s'.procs[q]) == Some(id);
    }
  }

  lemma RecordsStayOk(net: Net, s: State, p: nat, c: Change)
    requires V4Net(net) && Inv(net, s) && p < |s.procs| && GoodChange(net, s, s.procs[p], c)
    ensures
      var s' := Commit(net, s, p, c);
      forall id :: id in s'.records ==> s'.records[id].id == id && InfoOk(s'.born, s'.records[id])
  {
    BirthKeeps(net, s, p, c);
  }

  lemma TableStaysOk(net: Net, s: State, c: Change)
    requires V4Net(net) && TableOk(net, s.table)
    ensures TableOk(net, Tables(net, s.table, c.table))
  {
    match c.table
    case Took(id, req) => TableOkStep(net, s.table, AllocateOp(id, req));
    case Freed(id) => TableOkStep(net, s.table, ReleaseOp(id));
    case _ =>
  }

  lemma CommitKeepsInv(net: Net, s: State, p: nat, c: Change)
    requires V4Net(net) && Inv(net, s) && p < |s.procs| && GoodChange(net, s, s.procs[p], c)
    ensures Inv(net, Commit(net, s, p, c))
  {
    var s' := Commit(net, s, p, c);
    BirthKeeps(net, s, p, c);
    BegunStayDistinct(net, s, p, c);
    forall id | id in s'.table
      ensures Held(s', id)
    {
      HeldStays(net, s, p, c, id);
    }
    RecordsStayOk(net, s, p, c);
    TableStaysOk(net, s, c);
  }

  lemma CommitIfKeepsInv(net: Net, s: State, p: nat, c: Option<Change>)
    requires V4Net(net) && Inv(net, s)
    requires c.Some? && p < |s.procs| ==> GoodChange(net, s, s.procs[p], c.value)
    ensures Inv(net, CommitIf(net, s, p, c))
  {
    if c.Some? && p < |s.procs| {
      CommitKeepsInv(net, s, p, c.value);
    }
  }

  lemma ApplyKeepsInv(net: Net, s: State, step: Step)
    requires V4Net(net) && Inv(net, s)
    ensures Inv(net, Apply(net, s, step))
  {
    var c := Plan(net, s, step);
    if step.p < |s.procs| && c.Some? {
      PlanIsGood(net, s, step);
    }
    CommitIfKeepsInv(net, s, step.p, c);
  }

  lemma {:induction false} InvAlways(net: Net, n: nat, steps: seq<Step>)
    requires V4Net(net)
    ensures Inv(net, After(net, n, steps))
  {
    if steps != [] {
      InvAlways(net, n, steps[..|steps| - 1]);
      ApplyKeepsInv(net, After(net, n, steps[..|steps| - 1]), steps[|steps| - 1]);
    }
  }

  // ----- what every run keeps

  /** The last attempt of the run to release the address of `id` failed. */
  ghost predicate LastReleaseFailed(net: Net, n: nat, steps: seq<Step>, id: Id)
    requires V4Net(net)
  {
    if steps == [] then false
    else
      var init := steps[..|steps| - 1];
      var c := Plan(net, After(net, n, init), steps[|steps| - 1]);
      if c.Some? && c.value.table in {Freed(id), Stuck(id)} then c.value.table == Stuck(id)
      else LastReleaseFailed(net, n, init, id)
  }

  lemma StuckStep(net: Net, s: State, p: nat, c: Option<Change>, id: Id)
    requires V4Net(net) && (c.Some? ==> p < |s.procs|)
    ensures
      id in CommitIf(net, s, p, c).stuck
      <==> if c.Some? && c.value.table in {Freed(id), Stuck(id)} then c.value.table == Stuck(id) else id in s.stuck
  {
  }

  lemma {:induction false} StuckIsLastReleaseFailed(net: Net, n: nat, steps: seq<Step>, id: Id)
    requires V4Net(net)
    ensures id in After(net, n, steps).stuck <==> LastReleaseFailed(net, n, steps, id)
  {
    if steps != [] {
      var init := steps[..|steps| - 1];
      StuckIsLastReleaseFailed(net, n, init, id);
      var s, step := After(net, n, init), steps[|steps| - 1];
      StuckStep(net, s, step.p, Plan(net, s, step), id);
    }
  }

  /** Over every overlap and every failure, an address in the table belongs to a run or start in progress,
      or to a container whose last release failed; with neither it is empty. */
  lemma NoAddressLeaks(net: Net, n: nat, steps: seq<Step>)
    requires V4Net(net)
    ensures
      var s := After(net, n, steps);
      && (forall id :: id in s.table ==>
            LastReleaseFailed(net, n, steps, id) || exists p :: 0 <= p < |s.procs| && Holds(s.procs[p]) == Some(id))
      && (s.stuck == {} && (forall p :: 0 <= p < |s.procs| ==> Holds(s.procs[p]).None?) ==> s.table == map[])
  {
    InvAlways(net, n, steps);
    var s := After(net, n, steps);
    forall id | id in s.table
      ensures LastReleaseFailed(net, n, steps, id) || exists p :: 0 <= p < |s.procs| && Holds(s.procs[p]) == Some(id)
    {
      assert Held(s, id);
      StuckIsLastReleaseFailed(net, n, steps, id);
    }
    if s.stuck == {} && (forall p :: 0 <= p < |s.procs| ==> Holds(s.procs[p]).None?) {
      assert s.table.Keys == {};
    }
  }

  lemma PlanReleases(net: Net, s: State, step: Step)
    requires V4Net(net) && ReleaseSucceeds(step) && Plan(net, s, step).Some?
    ensures !Plan(net, s, step).value.table.Stuck?
  {
  }

  /** A release only fails when its file write does: if every release of the run succeeds, none is stuck. */
  lemma {:induction false} StuckOnlyByFailedRelease(net: Net, n: nat, steps: seq<Step>)
    requires V4Net(net)
    requires forall i :: 0 <= i < |steps| ==> ReleaseSucceeds(steps[i])
    ensures After(net, n, steps).stuck == {}
  {
    if steps != [] {
      var init, step := steps[..|steps| - 1], steps[|steps| - 1];
      StuckOnlyByFailedRelease(net, n, init);
      if Plan(net, After(net, n, init), step).Some? {
        PlanReleases(net, After(net, n, init), step);
      }
    }
  }

  predicate ReleaseSucceeds(step: Step) {
    match step
    case GiveUp(_, freed) => freed
    case StopCleanup(_, freed) => freed
    case _ => true
  }

  /** Every stored record has a known status and a process id exactly while running, whatever stale copies
      were written over it, and no two containers have one address in the table. */
  lemma RecordsStayConsistent(net: Net, n: nat, steps: seq<Step>, id: Id)
    requires V4Net(net) && id in After(net, n, steps).records
    ensures
      var i := After(net, n, steps).records[id];
      && i.id == id
      && i.status in {RUNNING, STOPPED, CREATED}
      && (i.pid != 0 <==> i.status == RUNNING)
    ensures TableOk(net, After(net, n, steps).table)
  {
    InvAlways(net, n, steps);
  }

  lemma CommitKeepsBorn(net: Net, s: State, p: nat, c: Option<Change>, id: Id)
    requires V4Net(net) && Inv(net, s) && id in s.born
    requires c.Some? ==> p < |s.procs| && GoodChange(net, s, s.procs[p], c.value)
    ensures id in CommitIf(net, s, p, c).born && CommitIf(net, s, p, c).born[id] == s.born[id]
  {
    if c.Some? {
      BirthKeeps(net, s, p, c.value);
    }
  }

  lemma ApplyKeepsBorn(net: Net, s: State, step: Step, id: Id)
    requires V4Net(net) && Inv(net, s) && id in s.born
    ensures id in Apply(net, s, step).born && Apply(net, s, step).born[id] == s.born[id]
  {
    if step.p < |s.procs| && Plan(net, s, step).Some? {
      PlanIsGood(net, s, step);
    }
    CommitKeepsBorn(net, s, step.p, Plan(net, s, step), id);
  }

  lemma {:induction false} BornStays(net: Net, n: nat, steps: seq<Step>, more: seq<Step>, id: Id)
    requires V4Net(net) && id in After(net, n, steps).born
    ensures id in After(net, n, steps + more).born
    ensures After(net, n, steps + more).born[id] == After(net, n, steps).born[id]
  {
    if more == [] {
      assert steps + more == steps;
    } else {
      var m := |more| - 1;
      BornStays(net, n, steps, more[..m], id);
      assert (steps + more)[..|steps + more| - 1] == steps + more[..m];
      InvAlways(net, n, steps + more[..m]);
      ApplyKeepsBorn(net, After(net, n, steps + more[..m]), more[m], id);
    }
  }

  /** Id, name, image, command, mount point, creation time and requested address of a stored record never
      change after creation, in any continuation of any run. */
  lemma IdentityNeverChanges(net: Net, n: nat, steps: seq<Step>, more: seq<Step>, id: Id)
    requires V4Net(net)
    requires id in After(net, n, steps).records && id in After(net, n, steps + more).records
    ensures IdentityOf(After(net, n, steps + more).records[id]) == IdentityOf(After(net, n, steps).records[id])
  {
    InvAlways(net, n, steps);
    InvAlways(net, n, steps + more);
    BornStays(net, n, steps, more, id);
  }

  // ----- the addresses operations go by

  /** The container and address an operation goes by until it gives the address back. */
  function AddressOf(p: Proc): Option<(Id, Bytes)> {
    match p
    case RunHolding(i) => OwnAddress(i)
    case RunCreated(i) => OwnAddress(i)
    case RunWaiting(i) => OwnAddress(i)
    case StartHolding(i) => OwnAddress(i)
    case StartWaiting(i) => OwnAddress(i)
    case _ => None
  }

  function OwnAddress(i: Info): Option<(Id, Bytes)> {
    match i.ipAddress
    case None => None
    case Some(ip) => Some((i.id, ip))
  }

  /** Since operation p took its address, some operation released that container's address. */
  ghost predicate ReleasedSince(net: Net, n: nat, steps: seq<Step>, p: nat)
    requires V4Net(net)
  {
    if steps == [] then false
    else
      var init, step := steps[..|steps| - 1], steps[|steps| - 1];
      var s := After(net, n, init);
      Lapses(s, p, step.p, Plan(net, s, step), ReleasedSince(net, n, init, p))
  }

  ghost predicate Lapses(s: State, p: nat, actor: nat, c: Option<Change>, before: bool) {
    if c.None? then before
    else if actor == p && c.value.table.Took? then false
    else before || (c.value.table.Freed? && p < |s.procs| && Holds(s.procs[p]) == Some(c.value.table.id))
  }

  /** An operation gets the address the allocator answers, and keeps it in its copy. */
  ghost predicate KeepsAddress(net: Net, s: State, proc: Proc, c: Change)
    requires V4Net(net)
  {
    match c.table
    case Took(id, req) =>
      && Atomic(net, s.table, AllocateOp(id, req)).reply.Address?
      && AddressOf(c.next) == Some((id, Atomic(net, s.table, AllocateOp(id, req)).reply.ip))
    case _ => AddressOf(c.next) in {None, AddressOf(proc)}
  }

  lemma PlanNewKeepsAddress(net: Net, s: State, step: Step, proc: Proc)
    requires V4Net(net) && PlanNew(net, s, step, proc).Some?
    ensures KeepsAddress(net, s, proc, PlanNew(net, s, step, proc).value)
  {
  }

  lemma PlanChildKeepsAddress(net: Net, s: State, step: Step, proc: Proc)
    requires V4Net(net) && PlanChild(step, proc).Some?
    ensures KeepsAddress(net, s, proc, PlanChild(step, proc).value)
  {
  }

  lemma PlanStartKeepsAddress(net: Net, s: State, step: Step, proc: Proc)
    requires V4Net(net) && PlanStart(net, s, step, proc).Some?
    ensures KeepsAddress(net, s, proc, PlanStart(net, s, step, proc).value)
  {
  }

  lemma PlanKeepsAddress(net: Net, s: State, step: Step)
    requires V4Net(net) && step.p < |s.procs| && Plan(net, s, step).Some?
    ensures KeepsAddress(net, s, s.procs[step.p], Plan(net, s, step).value)
  {
    var proc := s.procs[step.p];
    if step.BeginRun? || step.RunAllocate? || step.WriteFirst? || step.BeginCreate? {
      PlanNewKeepsAddress(net, s, step, proc);
    } else if step.MarkRunning? || step.MarkExited? || step.GiveUp? {
      PlanChildKeepsAddress(net, s, step, proc);
    } else if step.ReadForStart? || step.StartAllocate? {
      PlanStartKeepsAddress(net, s, step, proc);
    }
  }

  /** Operation p's address is its container's in the table. */
  ghost predicate IsOwn(s: State, p: nat)
    requires p < |s.procs|
  {
    var own := AddressOf(s.procs[p]);
    own.Some? ==> own.value.0 in s.table && s.table[own.value.0] == own.value.1
  }

  lemma CommitKeepsOwn(net: Net, s: State, p: nat, actor: nat, c: Option<Change>, lapsed: bool)
    requires V4Net(net) && p < |s.procs| && actor < |s.procs|
    requires c.Some? ==> KeepsAddress(net, s, s.procs[actor], c.value)
    requires !lapsed ==> IsOwn(s, p)
    ensures |CommitIf(net, s, actor, c).procs| == |s.procs|
    ensures !Lapses(s, p, actor, c, lapsed) ==> IsOwn(CommitIf(net, s, actor, c), p)
  {
  }

  /** Until somebody releases a container's address, an operation that took it goes by the address the table
      has for that container. */
  lemma {:induction false} AddressIsOwn(net: Net, n: nat, steps: seq<Step>, p: nat)
    requires V4Net(net) && p < n
    ensures |After(net, n, steps).procs| == n
    ensures !ReleasedSince(net, n, steps, p) ==> IsOwn(After(net, n, steps), p)
  {
    if steps != [] {
      var init, step := steps[..|steps| - 1], steps[|steps| - 1];
      AddressIsOwn(net, n, init, p);
      var s := After(net, n, init);
      if step.p < n {
        var c := Plan(net, s, step);
        if c.Some? {
          PlanKeepsAddress(net, s, step);
        }
        CommitKeepsOwn(net, s, p, step.p, c, ReleasedSince(net, n, init, p));
      }
    }
  }

  /** Two operations on different containers whose addresses nobody released since they took them go by
      different addresses. */
  lemma UnreleasedAddressesDiffer(net: Net, n: nat, steps: seq<Step>, p: nat, q: nat)
    requires V4Net(net) && p < n && q < n
    requires !ReleasedSince(net, n, steps, p) && !ReleasedSince(net, n, steps, q)
    ensures |After(net, n, steps).procs| == n
    ensures
      var a, b := AddressOf(After(net, n, steps).procs[p]), AddressOf(After(net, n, steps).procs[q]);
      a.Some? && b.Some? && a.value.0 != b.value.0 ==> a.value.1 != b.value.1
  {
    AddressIsOwn(net, n, steps, p);
    AddressIsOwn(net, n, steps, q);
    InvAlways(net, n, steps);
  }

  // ----- one operation without interruption

  /** The state after a sequence of steps from any state. */
  function Executed(net: Net, s: State, steps: seq<Step>): State
    requires V4Net(net)
  {
    if steps == [] then s else Apply(net, Executed(net, s, steps[..|steps| - 1]), steps[|steps| - 1])
  }

  /** What operation p sees: everything but the other operations. */
  ghost function Only(s: State, p: nat): State
    requires p < |s.procs|
  {
    s.(procs := [s.procs[p]])
  }

  ghost function AtZero(steps: seq<Step>): seq<Step> {
    seq(|steps|, i requires 0 <= i < |steps| => steps[i].(p := 0))
  }

  lemma PlanIsLocal(net: Net, s: State, step: Step)
    requires V4Net(net) && step.p < |s.procs|
    ensures Plan(net, Only(s, step.p), step.(p := 0)) == Plan(net, s, step)
  {
  }

  lemma CommitIsLocal(net: Net, s: State, p: nat, c: Option<Change>)
    requires V4Net(net) && p < |s.procs|
    ensures
      var s' := CommitIf(net, s, p, c);
      && |s'.procs| == |s.procs|
      && Only(s', p) == CommitIf(net, Only(s, p), 0, c)
      && forall q :: 0 <= q < |s.procs| && q != p ==> s'.procs[q] == s.procs[q]
  {
  }

  lemma ApplyIsLocal(net: Net, s: State, step: Step)
    requires V4Net(net) && step.p < |s.procs|
    ensures
      var s' := Apply(net, s, step);
      && |s'.procs| == |s.procs|
      && Only(s', step.p) == Apply(net, Only(s, step.p), step.(p := 0))
      && forall q :: 0 <= q < |s.procs| && q != step.p ==> s'.procs[q] == s.procs[q]
  {
    PlanIsLocal(net, s, step);
    CommitIsLocal(net, s, step.p, Plan(net, s, step));
  }

  lemma OneMoreAlone(net: Net, s: State, step: Step, alone: State, taken: seq<Step>)
    requires V4Net(net) && step.p < |s.procs| && Only(s, step.p) == Executed(net, alone, taken)
    ensures |Apply(net, s, step).procs| == |s.procs|
    ensures Only(Apply(net, s, step), step.p) == Executed(net, alone, taken + [step.(p := 0)])
  {
    ApplyIsLocal(net, s, step);
    assert (taken + [step.(p := 0)])[..|taken|] == taken;
  }

  lemma AppendLast(before: seq<Step>, mine: seq<Step>)
    requires mine != []
    ensures (before + mine)[..|before + mine| - 1] == before + mine[..|mine| - 1]
    ensures AtZero(mine) == AtZero(mine[..|mine| - 1]) + [mine[|mine| - 1].(p := 0)]
  {
  }

  lemma {:induction false} OperationsStay(net: Net, n: nat, steps: seq<Step>)
    requires V4Net(net)
    ensures |After(net, n, steps).procs| == n
  {
    if steps != [] {
      OperationsStay(net, n, steps[..|steps| - 1]);
    }
  }

  /** In any run of any number of operations, a stretch that belongs to one of them alone does to records and
      table what its steps do by themselves, and leaves the other operations where they are. */
  lemma {:induction false} UninterruptedIsAlone(net: Net, n: nat, before: seq<Step>, p: nat, mine: seq<Step>)
    requires V4Net(net) && p < n && forall i :: 0 <= i < |mine| ==> mine[i].p == p
    ensures |After(net, n, before).procs| == |After(net, n, before + mine).procs| == n
    ensures
      var s, s' := After(net, n, before), After(net, n, before + mine);
      && Only(s', p) == Executed(net, Only(s, p), AtZero(mine))
      && forall q :: 0 <= q < n && q != p ==> s'.procs[q] == s.procs[q]
  {
    OperationsStay(net, n, before);
    if mine == [] {
      assert before + mine == before;
    } else {
      var init, step := mine[..|mine| - 1], mine[|mine| - 1];
      UninterruptedIsAlone(net, n, before, p, init);
      var s, s' := After(net, n, before), After(net, n, before + init);
      AppendLast(before, mine);
      OneMoreAlone(net, s', step, Only(s, p), AtZero(init));
      ApplyIsLocal(net, s', step);
    }
  }
}
