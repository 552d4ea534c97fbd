/**
 What is in the record of a container, over every run: the fields its creation fixed are those its request
 asked for, so a start looks up the image the run looked up; and what each later step may change.
 */
module RecordHistory {
  import opened Common
  import opened Strings
  import opened Ipv4
  import opened Ipam
  import opened Images
  import opened Lifecycle

  /** The request a container's id was drawn for, by a run or by a create. */
  datatype Origin = Origin(req: RunRequest, byRun: bool)

  ghost predicate Draws(s: State, step: Step, id: Id) {
    && (step.BeginRun? || step.BeginCreate?) && step.id == id && id !in s.drawn
    && step.p < |s.procs| && s.procs[step.p] == Gone
  }

  ghost function OriginOf(net: Net, n: nat, steps: seq<Step>, id: Id): Option<Origin>
    requires V4Net(net)
  {
    if steps == [] then None
    else
      var init, step := steps[..|steps| - 1], steps[|steps| - 1];
      if Draws(After(net, n, init), step, id) then Some(Origin(step.req, step.BeginRun?))
      else OriginOf(net, n, init, id)
  }

  /** The fields of a record that its request decides. A container without a name is called by its id, and a
      create asks for no address. */
  ghost predicate AsRequested(i: Identity, o: Origin) {
    && i.image == o.req.imageName + ":" + o.req.imageTag
    && i.name == (if o.req.name == "" then i.id else o.req.name)
    && i.command == o.req.command
    && i.mountPoint == "/var/lib/gocker/containers/" + i.id + "/rootfs"
    && i.requestedIP == (if o.byRun then o.req.requestedIP else Unspecified)
  }

  lemma NewInfoIsAsRequested(id: Id, req: RunRequest, now: nat, ip: Option<Bytes>, byRun: bool)
    ensures AsRequested(IdentityOf(NewInfo(id, req, now, if byRun then req.requestedIP else Unspecified, ip)), Origin(req, byRun))
  {
    assert Format(req.imageName, req.imageTag) == req.imageName + ":" + req.imageTag;
  }

  /** A birth is that of a container whose operation has begun, as its request asks. */
  lemma BirthIsAsRequested(net: Net, s: State, step: Step)
    requires V4Net(net) && step.p < |s.procs| && Plan(net, s, step).Some? && Plan(net, s, step).value.birth.Some?
    ensures
      var i, proc := Plan(net, s, step).value.birth.value, s.procs[step.p];
      && Begun(proc) == Some(i.id)
      && AsRequested(IdentityOf(i), Origin(proc.req, proc.RunBegun?))
  {
    var i, proc := Plan(net, s, step).value.birth.value, s.procs[step.p];
    NewInfoIsAsRequested(i.id, proc.req, i.createdAt, i.ipAddress, proc.RunBegun?);
  }

  lemma OthersDoNotBegin(net: Net, s: State, step: Step, proc: Proc)
    requires V4Net(net)
    ensures PlanChild(step, proc).Some? ==> Begun(PlanChild(step, proc).value.next).None?
    ensures PlanStart(net, s, step, proc).Some? ==> Begun(PlanStart(net, s, step, proc).value.next).None?
    ensures PlanExisting(s, step, proc).Some? ==> Begun(PlanExisting(s, step, proc).value.next).None?
  {
  }

  lemma NewIsDrawn(net: Net, s: State, step: Step, proc: Proc)
    requires V4Net(net) && step.p < |s.procs| && s.procs[step.p] == proc && PlanNew(net, s, step, proc).Some?
    ensures
      var c := PlanNew(net, s, step, proc).value;
      Begun(c.next).Some? ==>
        && Draws(s, step, Begun(c.next).value)
        && c.next.req == step.req && (c.next.RunBegun? <==> step.BeginRun?)
  {
  }

  /** An operation begins where its id is drawn. */
  lemma BegunIsDrawn(net: Net, s: State, step: Step)
    requires V4Net(net) && step.p < |s.procs| && Plan(net, s, step).Some?
    ensures
      var c := Plan(net, s, step).value;
      Begun(c.next).Some? ==>
        && Draws(s, step, Begun(c.next).value)
        && c.next.req == step.req && (c.next.RunBegun? <==> step.BeginRun?)
  {
    var proc := s.procs[step.p];
    OthersDoNotBegin(net, s, step, proc);
    if PlanNew(net, s, step, proc).Some? {
      NewIsDrawn(net, s, step, proc);
    }
  }

  /** Every operation that has begun, and every container that was born, has its request's origin. */
  ghost predicate OriginsOk(net: Net, n: nat, steps: seq<Step>)
    requires V4Net(net)
  {
    var s := After(net, n, steps);
    && (forall p :: 0 <= p < |s.procs| ==> ProcOrigin(net, n, steps, s.procs[p]))
    && (forall id :: id in s.born ==> BornOrigin(net, n, steps, id, s.born[id]))
  }

  ghost predicate ProcOrigin(net: Net, n: nat, steps: seq<Step>, proc: Proc)
    requires V4Net(net)
  {
    Begun(proc).Some? ==> OriginOf(net, n, steps, Begun(proc).value) == Some(Origin(proc.req, proc.RunBegun?))
  }

  ghost predicate BornOrigin(net: Net, n: nat, steps: seq<Step>, id: Id, i: Identity)
    requires V4Net(net)
  {
    i.id == id && OriginOf(net, n, steps, id).Some? && AsRequested(i, OriginOf(net, n, steps, id).value)
  }

  lemma DrawnOriginStays(net: Net, n: nat, steps: seq<Step>, id: Id)
    requires V4Net(net) && steps != [] && id in After(net, n, steps[..|steps| - 1]).drawn
    ensures OriginOf(net, n, steps, id) == OriginOf(net, n, steps[..|steps| - 1], id)
  {
  }

  lemma OldProcOrigin(net: Net, n: nat, steps: seq<Step>, proc: Proc)
    requires V4Net(net) && steps != []
    requires
      var init := steps[..|steps| - 1];
      var s := After(net, n, init);
      ProcOrigin(net, n, init, proc) && ProcOk(s.born, s.drawn, proc)
    ensures ProcOrigin(net, n, steps, proc)
  {
    if Begun(proc).Some? {
      DrawnOriginStays(net, n, steps, Begun(proc).value);
    }
  }

  lemma NewProcOrigin(net: Net, n: nat, steps: seq<Step>)
    requires V4Net(net) && steps != []
    requires
      var s, step := After(net, n, steps[..|steps| - 1]), steps[|steps| - 1];
      step.p < |s.procs| && Plan(net, s, step).Some?
    ensures
      var s, step := After(net, n, steps[..|steps| - 1]), steps[|steps| - 1];
      ProcOrigin(net, n, steps, Plan(net, s, step).value.next)
  {
    BegunIsDrawn(net, After(net, n, steps[..|steps| - 1]), steps[|steps| - 1]);
  }

  lemma NewBornOrigin(net: Net, n: nat, steps: seq<Step>)
    requires V4Net(net) && steps != []
    requires
      var s, step := After(net, n, steps[..|steps| - 1]), steps[|steps| - 1];
      && step.p < |s.procs| && Plan(net, s, step).Some? && Plan(net, s, step).value.birth.Some?
      && ProcOrigin(net, n, steps, s.procs[step.p])
    ensures
      var s, step := After(net, n, steps[..|steps| - 1]), steps[|steps| - 1];
      var i := Plan(net, s, step).value.birth.value;
      BornOrigin(net, n, steps, i.id, IdentityOf(i))
  {
    BirthIsAsRequested(net, After(net, n, steps[..|steps| - 1]), steps[|steps| - 1]);
  }

  /** What one change does to operations and births. */
  lemma CommitChanges(net: Net, s: State, p: nat, c: Option<Change>)
    requires V4Net(net) && (c.Some? ==> p < |s.procs|)
    ensures
      var s' := CommitIf(net, s, p, c);
      && |s'.procs| == |s.procs|
      && (forall q :: 0 <= q < |s.procs| ==> s'.procs[q] == if c.Some? && q == p then c.value.next else s.procs[q])
      && s'.born == if c.Some? && c.value.birth.Some? then s.born[c.value.birth.value.id := IdentityOf(c.value.birth.value)]
                    else s.born
  {
  }

  lemma {:induction false} OriginsAlways(net: Net, n: nat, steps: seq<Step>)
    requires V4Net(net)
    ensures OriginsOk(net, n, steps)
  {
    if steps != [] {
      var init, step := steps[..|steps| - 1], steps[|steps| - 1];
      var s := After(net, n, init);
      OriginsAlways(net, n, init);
      InvAlways(net, n, init);
      var c := Plan(net, s, step);
      CommitChanges(net, s, step.p, c);
      OriginsStep(net, n, steps, s, c);
    }
  }

  lemma OriginsStep(net: Net, n: nat, steps: seq<Step>, s: State, c: Option<Change>)
    requires V4Net(net) && steps != []
    requires
      var init, step := steps[..|steps| - 1], steps[|steps| - 1];
      && s == After(net, n, init) && c == Plan(net, s, step)
      && OriginsOk(net, n, init) && Inv(net, s) && (c.Some? ==> step.p < |s.procs|)
    ensures OriginsOk(net, n, steps)
  {
    var step := steps[|steps| - 1];
    CommitChanges(net, s, step.p, c);
    var s' := CommitIf(net, s, step.p, c);
    forall q | 0 <= q < |s'.procs|
      ensures ProcOrigin(net, n, steps, s'.procs[q])
    {
      if c.Some? && q == step.p {
        NewProcOrigin(net, n, steps);
      } else {
        OldProcOrigin(net, n, steps, s.procs[q]);
      }
    }
    forall id | id in s'.born
      ensures BornOrigin(net, n, steps, id, s'.born[id])
    {
      if c.Some? && c.value.birth.Some? && id == c.value.birth.value.id {
        OldProcOrigin(net, n, steps, s.procs[step.p]);
        NewBornOrigin(net, n, steps);
      } else {
        assert BornOrigin(net, n, steps[..|steps| - 1], id, s.born[id]);
        DrawnOriginStays(net, n, steps, id);
      }
    }
  }

  /** Over every run, a stored record has the image, name, command, mount point and requested address that the
      request its container was made for asks for, whatever stale copies were written over it. */
  lemma RecordsAreAsRequested(net: Net, n: nat, steps: seq<Step>, id: Id)
    requires V4Net(net) && id in After(net, n, steps).records
    ensures OriginOf(net, n, steps, id).Some?
    ensures AsRequested(IdentityOf(After(net, n, steps).records[id]), OriginOf(net, n, steps, id).value)
  {
    InvAlways(net, n, steps);
    OriginsAlways(net, n, steps);
    assert BornOrigin(net, n, steps, id, After(net, n, steps).born[id]);
  }

  /** So when a container was made for an image argument, parsing the image in its record gives the argument's
      name and tag, and a start looks up the key, and from the same manifest the image, that the run did. */
  lemma StartLooksUpTheSame(net: Net, n: nat, steps: seq<Step>, id: Id, arg: string, m: Manifest)
    requires V4Net(net) && id in After(net, n, steps).records
    ensures OriginOf(net, n, steps, id).Some?
    ensures
      var req, image := OriginOf(net, n, steps, id).value.req, After(net, n, steps).records[id].image;
      (req.imageName, req.imageTag) == Parse(arg) ==>
        && Parse(image) == (req.imageName, req.imageTag)
        && FindImageRootfs(m, Parse(image).0, Parse(image).1) == FindImageRootfs(m, req.imageName, req.imageTag)
  {
    RecordsAreAsRequested(net, n, steps, id);
    ParseOfFormat(arg);
    var (name, tag) := Parse(arg);
    assert name + ":" + tag == Format(name, tag);
  }

  // ----- what a step may change

  /** Only the first write of a run or create makes a record: one that was deleted stays deleted through every
      other write. */
  lemma OnlyFirstWriteMakesRecords(net: Net, s: State, step: Step, id: Id)
    requires V4Net(net) && id !in s.records && id in Apply(net, s, step).records
    ensures step.WriteFirst?
  {
  }

  /** A container made by a create exits as stopped, without a process, at the time of the exit, if the write
      succeeds; nothing else about it, and no address, changes. */
  lemma CreatedExits(net: Net, s: State, p: nat, info: Info, ok: bool, now: nat)
    requires V4Net(net) && p < |s.procs| && s.procs[p] == CreateWaiting(info)
    ensures
      var s' := Apply(net, s, MarkExited(p, ok, now));
      && s'.procs == s.procs[p := Gone] && s'.table == s.table
      && s'.records == if ok && info.id in s.records
                       then s.records[info.id := info.(pid := 0, status := "stopped", finishedAt := Some(now))]
                       else s.records
  {
    var c := Quiet(Gone).(record := WriteIf(ok, info.(pid := 0, status := STOPPED, finishedAt := Some(now))));
    assert PlanChild(MarkExited(p, ok, now), CreateWaiting(info)) == Some(c);
    assert Apply(net, s, MarkExited(p, ok, now)) == Commit(net, s, p, c);
  }
}
