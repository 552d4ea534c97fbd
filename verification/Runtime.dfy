/**
 The lifecycle operations as written, each run alone: straight-line code over the stored records and the
 allocation table, with the address released on every way out once it was taken. Which external calls
 succeed is a parameter. Each is proved against an outcome, and each outcome is what a stretch of steps of
 the machine of `Lifecycle` leaves, where the same steps overlap with those of other operations: see
 `RuntimeSteps`.
 */
module Runtime {
  import opened Common
  import opened Ipv4
  import opened Ipam
  import opened Lifecycle

  /** Which external calls succeed: launching the child (and, in a start, its network), the allocator, the
      first record write, handing over the configuration or the signal, the write of Running, the set-up of
      the cgroup (and, in a run, of the network), the write of Stopped, the release. */
  datatype Faults = Faults(launches: bool, allocates: bool, firstWrite: bool, hand: bool, runningWrite: bool,
                           setUp: bool, exitWrite: bool, releases: bool)

  /** What is stored: records and allocation table. */
  datatype Store = Store(records: map<Id, Info>, table: Table)

  // ----- outcomes

  /** The allocator call gives an address. */
  predicate Gets(net: Net, table: Table, id: Id, req: Requested, allocates: bool)
    requires V4Net(net)
  {
    allocates && Atomic(net, table, AllocateOp(id, req)).reply.Address?
  }

  function Given(net: Net, table: Table, id: Id, req: Requested): Outcome
    requires V4Net(net)
  {
    Atomic(net, table, AllocateOp(id, req))
  }

  function Released(st: Store, id: Id, releases: bool): Store {
    if releases then st.(table := st.table - {id}) else st
  }

  function Written(st: Store, info: Info, ok: bool): Store {
    st.(records := Records(st.records, WriteIf(ok, info)))
  }

  function Exited(info: Info, finishedAt: Option<nat>): Info {
    info.(pid := 0, status := STOPPED, finishedAt := finishedAt)
  }

  function RunOutcome(net: Net, st: Store, id: Id, req: RunRequest, f: Faults, pid: int, now: nat): Store
    requires V4Net(net)
  {
    if !Gets(net, st.table, id, req.requestedIP, f.allocates) then st
    else
      var o := Given(net, st.table, id, req.requestedIP);
      var info := NewInfo(id, req, now, req.requestedIP, Some(o.reply.ip));
      if !f.firstWrite then Released(st.(table := o.table), id, f.releases)
      else LaunchOutcome(Store(st.records[id := info], o.table), info, f, pid)
  }

  function LaunchOutcome(st: Store, info: Info, f: Faults, pid: int): Store {
    if !f.launches || !f.setUp || !f.hand then Released(st, info.id, f.releases)
    else
      var running := Written(st, AsRunning(info, pid, true), f.runningWrite);
      Released(Written(running, Exited(info, info.finishedAt), f.exitWrite), info.id, f.releases)
  }

  function StartOutcome(net: Net, st: Store, id: Id, f: Faults, pid: int, now: nat): Store
    requires V4Net(net)
  {
    if id !in st.records || st.records[id].status !in {STOPPED, CREATED} || !f.launches
       || !Gets(net, st.table, id, Desired(st.records[id]), f.allocates) then st
    else
      var o := Given(net, st.table, id, Desired(st.records[id]));
      HeldOutcome(st.(table := o.table), st.records[id].(ipAddress := Some(o.reply.ip)), f, pid, now)
  }

  function HeldOutcome(st: Store, info: Info, f: Faults, pid: int, now: nat): Store {
    if !f.hand then Released(st, info.id, f.releases)
    else
      var running := Written(st, AsRunning(info, pid, false), f.runningWrite);
      if !f.setUp then Released(running, info.id, f.releases)
      else Released(Written(running, Exited(info, Some(now)), f.exitWrite), info.id, f.releases)
  }

  /** A create leaves a waiter with its copy of the record when it succeeds. */
  function CreateOutcome(st: Store, id: Id, req: RunRequest, f: Faults, pid: int, now: nat): (Store, Option<Info>) {
    var info := NewInfo(id, req, now, Unspecified, None);
    if !f.firstWrite then (st, None)
    else
      var made := st.(records := st.records[id := info]);
      if !f.launches || !f.setUp || !f.hand then (made, None)
      else (Written(made, AsRunning(info, pid, true), f.runningWrite), Some(AsRunning(info, pid, true)))
  }

  function StopOutcome(st: Store, id: Id, f: Faults, now: nat): Store {
    if id !in st.records || st.records[id].status != RUNNING || !f.hand || !f.exitWrite then st
    else Released(st.(records := st.records[id := Exited(st.records[id], Some(now))]), id, f.releases)
  }

  function AdjustOutcome(st: Store, id: Id, limits: Limits, f: Faults): Store {
    if id !in st.records || st.records[id].status != RUNNING || !f.setUp || !f.exitWrite then st
    else
      var info := st.records[id];
      st.(records := st.records[id := info.(limits := MergeLimits(limits, info.limits))])
  }

  function RemoveOutcome(st: Store, id: Id, f: Faults): Store {
    if id !in st.records || st.records[id].status == RUNNING || !f.setUp then st
    else st.(records := st.records - {id})
  }

  /** The address a start asks for: the one requested at creation, and without a request the one held last. */
  function Wanted(i: Info): Requested {
    if i.requestedIP != Unspecified then i.requestedIP
    else if i.ipAddress != None then Parsed(i.ipAddress.value)
    else Unspecified
  }

  /** A container that asked for no address gets the one it held last again, while that is free. */
  lemma RestartKeepsAddress(net: Net, table: Table, i: Info, a: Bytes)
    requires V4Net(net) && i.requestedIP == Unspecified && i.ipAddress == Some(a)
    requires |net.subnet.ip| == |net.subnet.mask| && |a| == 4 && Lo(net) < Val(a) < Hi(net) && NotConfigured(net, a)
    requires i.id !in table && a !in table.Values
    ensures Given(net, table, i.id, Desired(i)).reply == Address(a)
  {
    RequestIsGranted(net, table, i.id, a);
  }

  /** A start that gets an address. */
  ghost predicate GetsAddress(net: Net, st: Store, id: Id, f: Faults)
    requires V4Net(net)
  {
    && id in st.records && (st.records[id].status == "stopped" || st.records[id].status == "created")
    && f.launches && f.allocates
    && Atomic(net, st.table, AllocateOp(id, Wanted(st.records[id]))).reply.Address?
  }

  /** The record of a container that was given an address, as the part of a start that holds it leaves it:
      exited, still running when its exit was not written or its cgroup failed, or as it was. */
  function LeftRecord(was: Info, held: Info, f: Faults, pid: int, now: nat): Info {
    if f.hand && f.setUp && f.exitWrite then held.(pid := 0, status := "stopped", finishedAt := Some(now))
    else if f.hand && f.runningWrite then held.(pid := pid, status := "running", finishedAt := None)
    else was
  }

  lemma HeldLeaves(st: Store, held: Info, f: Faults, pid: int, now: nat)
    ensures
      var left := HeldOutcome(st, held, f, pid, now);
      && left.table == (if f.releases then st.table - {held.id} else st.table)
      && left.records == if held.id in st.records
                         then st.records[held.id := LeftRecord(st.records[held.id], held, f, pid, now)] else st.records
  {
    if held.id in st.records {
      var r := st.records;
      assert r == r[held.id := r[held.id]];
    }
  }

  /** What an allocation does to the table concerns its container alone. */
  lemma AllocationIsOwn(net: Net, table: Table, id: Id, req: Requested)
    requires V4Net(net)
    ensures Atomic(net, table, AllocateOp(id, req)).table - {id} == table - {id}
    ensures id !in table ==> table - {id} == table
  {
  }

  /** What a start leaves: the container's record after it held the address it was given, and that address
      given back; or everything as it was. No address but the container's own is touched, its record stays
      consistent and keeps its identity. */
  ghost predicate StartLeft(net: Net, before: Store, after: Store, id: Id, f: Faults, pid: int, now: nat)
    requires V4Net(net)
  {
    && (!GetsAddress(net, before, id, f) ==> after == before)
    && (GetsAddress(net, before, id, f) ==>
          var o, i := Atomic(net, before.table, AllocateOp(id, Wanted(before.records[id]))), before.records[id];
          && after.records == before.records[id := LeftRecord(i, i.(ipAddress := Some(o.reply.ip)), f, pid, now)]
          && after.table == if f.releases then o.table - {id} else o.table)
    && after.table - {id} == before.table - {id}
    && (f.releases && id !in before.table ==> after.table == before.table)
    && (id in after.records ==>
          StatusOk(after.records[id]) && IdentityOf(after.records[id]) == IdentityOf(before.records[id]))
  }

  lemma StartLeaves(net: Net, st: Store, id: Id, f: Faults, pid: int, now: nat)
    requires V4Net(net) && pid != 0
    requires id in st.records ==> st.records[id].id == id && StatusOk(st.records[id])
    ensures StartLeft(net, st, StartOutcome(net, st, id, f, pid, now), id, f, pid, now)
  {
    if id in st.records {
      AllocationIsOwn(net, st.table, id, Desired(st.records[id]));
    }
    if GetsAddress(net, st, id, f) {
      var o := Atomic(net, st.table, AllocateOp(id, Desired(st.records[id])));
      HeldLeaves(st.(table := o.table), st.records[id].(ipAddress := Some(o.reply.ip)), f, pid, now);
    }
  }

  class Manager {
    const net: Net
    var records: map<Id, Info>
    var table: Table

    constructor (net: Net, records: map<Id, Info>, table: Table)
      ensures this.net == net && this.records == records && this.table == table
    {
      this.net, this.records, this.table := net, records, table;
    }

    ghost function Stored(): Store
      reads this
    {
      Store(records, table)
    }

    /** One allocator call: the atomic table's answer, or a failure that changes nothing. */
    method AllocateIP(id: Id, req: Requested, allocates: bool) returns (ip: Option<Bytes>)
      requires V4Net(net)
      modifies this`table
      ensures
        var o := Atomic(net, old(table), AllocateOp(id, req));
        if allocates && o.reply.Address? then ip == Some(o.reply.ip) && table == o.table
        else ip == None && table == old(table)
      ensures table - {id} == old(table) - {id}
      ensures id !in old(table) ==> table - {id} == old(table)
      ensures ip.Some? ==> id in table && table[id] == ip.value
    {
      var o := Atomic(net, table, AllocateOp(id, req));
      if !allocates || !o.reply.Address? {
        return None;
      }
      table := o.table;
      return Some(o.reply.ip);
    }

    method ReleaseIP(id: Id, releases: bool)
      modifies this`table
      ensures table == if releases then old(table) - {id} else old(table)
    {
      if releases {
        table := table - {id};
      }
    }

    /** A record is overwritten only while the container's directory exists. */
    method WriteInfo(info: Info, ok: bool)
      modifies this`records
      ensures records == Records(old(records), WriteIf(ok, info))
    {
      if ok && info.id in records {
        records := records[info.id := info];
      }
    }

    /** Runs a new container to its end. Whatever fails, the allocation table ends as it began when the
        release succeeds, and otherwise differs by this container alone; other records are untouched; and
        the record left behind says how far the container got. */
    method RunContainer(id: Id, req: RunRequest, f: Faults, pid: int, now: nat) returns (ok: bool)
      requires V4Net(net) && pid != 0
      requires id !in table && id !in records
      modifies this
      ensures Stored() == RunOutcome(net, old(Stored()), id, req, f, pid, now)
      ensures table - {id} == old(table)
      ensures f.releases ==> table == old(table)
      ensures records - {id} == old(records)
      ensures
        var reply := Atomic(net, old(table), AllocateOp(id, req.requestedIP)).reply;
        && (id in records <==> f.allocates && reply.Address? && f.firstWrite)
        && (ok <==> id in records && f.launches && f.setUp && f.hand)
        && (id in records ==>
              var i := records[id];
              && i.id == id && i.name == (if req.name == "" then id else req.name) && i.command == req.command
              && i.image == req.imageName + ":" + req.imageTag
              && i.mountPoint == "/var/lib/gocker/containers/" + id + "/rootfs"
              && i.createdAt == now && i.finishedAt == None && i.limits == req.limits
              && i.requestedIP == req.requestedIP && i.ipAddress == Some(reply.ip))
      ensures id in records ==>
                && StatusOk(records[id])
                && records[id].status == (if !ok then "created" else if f.exitWrite then "stopped"
                                          else if f.runningWrite then "running" else "created")
                && (records[id].status == "running" ==> records[id].pid == pid)
    {
      var ip := AllocateIP(id, req.requestedIP, f.allocates);
      if ip.None? {
        return false;
      }
      var info := NewInfo(id, req, now, req.requestedIP, ip);
      if !f.firstWrite {
        ReleaseIP(id, f.releases);
        return false;
      }
      records := records[id := info];
      ok := LaunchAndWait(info, f, pid);
    }

    /** Launches the child, marks the container running, waits for it, and marks it stopped. */
    method LaunchAndWait(created: Info, f: Faults, pid: int) returns (ok: bool)
      requires pid != 0
      requires created.id in records && records[created.id] == created && created.status == CREATED
      modifies this
      ensures Stored() == LaunchOutcome(old(Stored()), created, f, pid)
      ensures ok == (f.launches && f.setUp && f.hand)
      ensures table == if f.releases then old(table) - {created.id} else old(table)
      ensures records == old(records)[created.id :=
                if ok && f.exitWrite then created.(pid := 0, status := STOPPED)
                else if ok && f.runningWrite then created.(pid := pid, status := RUNNING) else created]
    {
      if !f.launches || !f.setUp || !f.hand {
        ReleaseIP(created.id, f.releases);
        return false;
      }
      var info := created.(pid := pid, status := RUNNING);
      WriteInfo(info, f.runningWrite);
      info := info.(pid := 0, status := STOPPED);
      WriteInfo(info, f.exitWrite);
      ReleaseIP(info.id, f.releases);
      return true;
    }

    /** Starts an existing container and waits for it. The address taken is given back on every way out,
        so a container that held none before holds none after; the identity of its record is kept. */
    method Start(id: Id, f: Faults, pid: int, now: nat) returns (ok: bool)
      requires V4Net(net) && pid != 0
      requires id in records ==> records[id].id == id && StatusOk(records[id])
      modifies this
      ensures Stored() == StartOutcome(net, old(Stored()), id, f, pid, now)
      ensures ok <==> GetsAddress(net, old(Stored()), id, f) && f.hand && f.setUp
      ensures StartLeft(net, old(Stored()), Stored(), id, f, pid, now)
    {
      StartLeaves(net, Stored(), id, f, pid, now);
      if id !in records {
        return false;
      }
      var info := records[id];
      if info.status == RUNNING || (info.status != STOPPED && info.status != CREATED) {
        return false;
      }
      if !f.launches {
        return false;
      }
      var ip := AllocateIP(id, Desired(info), f.allocates);
      if ip.None? {
        return false;
      }
      info := info.(ipAddress := ip);
      ok := RunToEnd(info, f, pid, now);
    }

    /** The part of a start that holds the address: every way out of it releases. */
    method RunToEnd(held: Info, f: Faults, pid: int, now: nat) returns (ok: bool)
      requires pid != 0
      modifies this
      ensures Stored() == HeldOutcome(old(Stored()), held, f, pid, now)
      ensures ok <==> f.hand && f.setUp
      ensures table == if f.releases then old(table) - {held.id} else old(table)
      ensures records == if held.id in old(records)
                         then old(records)[held.id := LeftRecord(old(records)[held.id], held, f, pid, now)] else old(records)
    {
      HeldLeaves(Stored(), held, f, pid, now);
      var info := held;
      if !f.hand {
        ReleaseIP(info.id, f.releases);
        return false;
      }
      info := info.(pid := pid, status := RUNNING, finishedAt := None);
      WriteInfo(info, f.runningWrite);
      if !f.setUp {
        ReleaseIP(info.id, f.releases);
        return false;
      }
      info := info.(pid := 0, status := STOPPED, finishedAt := Some(now));
      WriteInfo(info, f.exitWrite);
      ReleaseIP(info.id, f.releases);
      return true;
    }

    /** Makes a new container and starts it, asking for no address; its exit is waited for elsewhere. */
    method CreateAndRun(id: Id, req: RunRequest, f: Faults, pid: int, now: nat) returns (waiter: Option<Info>)
      requires pid != 0 && id !in records
      modifies this`records
      ensures (Stored(), waiter) == CreateOutcome(old(Stored()), id, req, f, pid, now)
      ensures records - {id} == old(records)
      ensures id in records <==> f.firstWrite
      ensures waiter.Some? <==> f.firstWrite && f.launches && f.setUp && f.hand
      ensures waiter.Some? ==> waiter.value.id == id && waiter.value.status == "running" && waiter.value.pid == pid
      ensures id in records ==>
                var i := records[id];
                && i.id == id && i.name == (if req.name == "" then id else req.name) && i.command == req.command
                && i.image == req.imageName + ":" + req.imageTag
                && i.mountPoint == "/var/lib/gocker/containers/" + id + "/rootfs"
                && i.createdAt == now && i.finishedAt == None && i.limits == req.limits
                && i.requestedIP == Unspecified && i.ipAddress == None
                && if waiter.Some? && f.runningWrite then i == waiter.value else i.status == "created" && i.pid == 0
    {
      var info := NewInfo(id, req, now, Unspecified, None);
      if !f.firstWrite {
        return None;
      }
      records := records[id := info];
      if !f.launches || !f.setUp || !f.hand {
        return None;
      }
      info := info.(pid := pid, status := RUNNING);
      WriteInfo(info, f.runningWrite);
      return Some(info);
    }

    /** The waiter's write when the created container has exited. */
    method ExitCreated(waiter: Info, f: Faults, now: nat)
      modifies this`records
      ensures records == if f.exitWrite && waiter.id in old(records)
                         then old(records)[waiter.id := waiter.(pid := 0, status := "stopped", finishedAt := Some(now))]
                         else old(records)
    {
      var info := waiter.(pid := 0, status := STOPPED, finishedAt := Some(now));
      WriteInfo(info, f.exitWrite);
    }

    /** Marks a running container stopped and frees its address; `hand` is whether the signal was sent. */
    method StopContainer(id: Id, f: Faults, now: nat) returns (ok: bool)
      requires id in records ==> records[id].id == id
      modifies this
      ensures Stored() == StopOutcome(old(Stored()), id, f, now)
      ensures ok <==> id in old(records) && old(records)[id].status == RUNNING && f.hand && f.exitWrite
      ensures ok ==> records == old(records)[id := old(records)[id].(status := STOPPED, pid := 0, finishedAt := Some(now))]
      ensures ok ==> table == if f.releases then old(table) - {id} else old(table)
      ensures !ok ==> records == old(records) && table == old(table)
    {
      if id !in records {
        return false;
      }
      var info := records[id];
      if info.status != RUNNING {
        return false;
      }
      if !f.hand {
        return false;
      }
      info := info.(status := STOPPED, pid := 0, finishedAt := Some(now));
      if !f.exitWrite {
        return false;
      }
      WriteInfo(info, true);
      ReleaseIP(id, f.releases);
      return true;
    }

    /** Overwrites the limits of a running container, a limit of -1 keeping the stored one. */
    method AdjustResourceLimits(id: Id, limits: Limits, f: Faults) returns (ok: bool)
      requires id in records ==> records[id].id == id
      modifies this`records
      ensures Stored() == AdjustOutcome(old(Stored()), id, limits, f)
      ensures ok <==> id in old(records) && old(records)[id].status == RUNNING && f.setUp && f.exitWrite
      ensures ok ==> records == old(records)[id := old(records)[id].(limits := MergeLimits(limits, old(records)[id].limits))]
      ensures ok ==>
                var before, after := old(records)[id].limits, records[id].limits;
                && after.memory == (if limits.memory == -1 then before.memory else limits.memory)
                && after.pids == (if limits.pids == -1 then before.pids else limits.pids)
                && after.cpu == (if limits.cpu == -1 then before.cpu else limits.cpu)
      ensures !ok ==> records == old(records)
    {
      if id !in records {
        return false;
      }
      var info := records[id];
      if info.status != RUNNING {
        return false;
      }
      var merged := limits;
      if merged.cpu == INVALID_LIMIT {
        merged := merged.(cpu := info.limits.cpu);
      }
      if merged.memory == INVALID_LIMIT {
        merged := merged.(memory := info.limits.memory);
      }
      if merged.pids == INVALID_LIMIT {
        merged := merged.(pids := info.limits.pids);
      }
      if !f.setUp {
        return false;
      }
      WriteInfo(info.(limits := merged), f.exitWrite);
      return f.exitWrite;
    }

    /** Deletes the record of a container that is not running. */
    method RemoveContainer(id: Id, f: Faults) returns (ok: bool)
      modifies this`records
      ensures Stored() == RemoveOutcome(old(Stored()), id, f)
      ensures ok <==> id in old(records) && old(records)[id].status != RUNNING && f.setUp
      ensures records == if ok then old(records) - {id} else old(records)
    {
      if id !in records || records[id].status == RUNNING {
        return false;
      }
      if !f.setUp {
        return false;
      }
      records := records - {id};
      return true;
    }
  }
}
