/**
 The allocator's public operations, each a load, modify and save of the allocation file, and the file
 itself. Whether a load succeeds, and at which point a save fails, are parameters of the call.
 */
module IpamStore {
  import opened Common
  import opened Ipv4
  import opened Ipam

  /** The contents of the allocation file or of the temporary file beside it. */
  datatype FileData = Missing | Blank | Doc(table: Table) | Torn

  /** What loading yields: an absent or empty file is an empty table, torn contents do not parse. */
  function Decode(f: FileData): Option<Table> {
    match f
    case Missing => Some(map[])
    case Blank => Some(map[])
    case Doc(t) => Some(t)
    case Torn => None
  }

  /** Where a save fails: opening the temporary file, encoding into it, syncing it, renaming it. */
  datatype SaveFault = Intact | OpenFails | EncodeFails | SyncFails | RenameFails

  /** The allocation file and the temporary file beside it. */
  datatype Disk = Disk(file: FileData, temp: FileData)

  /** What a save leaves. The allocation file changes in the rename alone; a failed save leaves the temporary
      file as it was, half written, or complete. */
  function Saved(d: Disk, state: Table, fault: SaveFault): Disk {
    match fault
    case OpenFails => d
    case EncodeFails => d.(temp := Torn)
    case SyncFails => d.(temp := Doc(state))
    case RenameFails => d.(temp := Doc(state))
    case Intact => Disk(Doc(state), Missing)
  }

  /** How one call relates the files before it, the files after it and its answer. */
  ghost predicate Performed(net: Net, before: Disk, op: Op, loads: bool, fault: SaveFault, after: Disk, reply: Reply)
    requires V4Net(net)
  {
    if !loads || Decode(before.file).None? then after == before && reply == IoFailed
    else
      var o := Atomic(net, Decode(before.file).value, op);
      if !o.writes then after == before && reply == o.reply
      else after == Saved(before, o.table, fault) && reply == if fault.Intact? then o.reply else IoFailed
  }

  /** A call that loads and saves grants a requested address strictly inside the block, not configured and not
      held, to a container that has none. */
  lemma CallGrants(net: Net, before: Disk, id: Id, a: Bytes, after: Disk, reply: Reply)
    requires V4Net(net) && |net.subnet.ip| == |net.subnet.mask| && |a| == 4
    requires Decode(before.file).Some? && id !in Decode(before.file).value && a !in Decode(before.file).value.Values
    requires Lo(net) < Val(a) < Hi(net) && NotConfigured(net, a)
    requires Performed(net, before, AllocateOp(id, Parsed(MAPPED + a)), true, Intact, after, reply)
    ensures reply == Address(a) && after == Disk(Doc(Decode(before.file).value[id := a]), Missing)
  {
    RequestIsGranted(net, Decode(before.file).value, id, a);
  }

  /** A container without an address is given the requested one or the first free one, or none. */
  lemma AllocationCases(net: Net, table: Table, id: Id, req: Requested)
    requires V4Net(net) && id !in table
    ensures |net.subnet.ip| == |net.subnet.mask| == 4
    ensures
      var o := Atomic(net, table, AllocateOp(id, req));
      if Grantable(net, table, req) then o == Outcome(table[id := Canonical(req.ip)], Address(Canonical(req.ip)), true)
      else if AutoSearch(net, table.Values).None? then o == Outcome(table, Exhausted, false)
      else o == Outcome(table[id := AutoSearch(net, table.Values).value], Address(AutoSearch(net, table.Values).value), true)
  {
    BlockFacts(net, [0, 0, 0, 0]);
  }

  class Allocator {
    const net: Net
    var file: FileData
    var temp: FileData

    constructor (net: Net)
      requires V4Net(net)
      ensures this.net == net && file == Missing && temp == Missing
    {
      this.net := net;
      file, temp := Missing, Missing;
    }

    method Load(loads: bool) returns (state: Option<Table>)
      ensures state == if loads then Decode(file) else None
      ensures loads && (file.Missing? || file.Blank?) ==> state == Some(map[])
      ensures loads && file.Doc? ==> state == Some(file.table)
      ensures file.Torn? ==> state == None
    {
      if !loads {
        return None;
      }
      match file
      case Missing => return Some(map[]);
      case Blank => return Some(map[]);
      case Torn => return None;
      case Doc(t) => return Some(t);
    }

    /** Writes the table to the temporary file, then moves that over the allocation file. */
    method Save(state: Table, fault: SaveFault) returns (ok: bool)
      modifies this`file, this`temp
      ensures ok == fault.Intact?
      ensures Disk(file, temp) == Saved(old(Disk(file, temp)), state, fault)
      ensures !ok ==> file == old(file)
    {
      if fault.OpenFails? {
        return false;
      }
      temp := Blank;
      if fault.EncodeFails? {
        temp := Torn;
        return false;
      }
      temp := Doc(state);
      if fault.SyncFails? || fault.RenameFails? {
        return false;
      }
      file, temp := temp, Missing;
      return true;
    }

    /** The set of addresses in use, collected entry by entry. */
    static method UsedAddresses(state: Table) returns (used: set<Bytes>)
      ensures used == state.Values
    {
      used := {};
      var ids := state.Keys;
      while ids != {}
        invariant ids <= state.Keys
        invariant used == set id | id in state.Keys - ids :: state[id]
        decreases ids
      {
        var id :| id in ids;
        ids := ids - {id};
        used := used + {state[id]};
      }
    }

    /** The reserved addresses, added one by one. */
    static method BuildReserved(net: Net) returns (reserved: set<Bytes>)
      requires |net.subnet.ip| == |net.subnet.mask|
      ensures reserved == Reserved(net)
    {
      reserved := {};
      if net.gateway.Some? {
        reserved := reserved + {Canonical(net.gateway.value)};
      }
      if net.bridge.Some? {
        reserved := reserved + {Canonical(net.bridge.value)};
      }
      reserved := reserved + {net.subnet.ip};
      var broadcast := BroadcastIP(net.subnet);
      reserved := reserved + {broadcast[..]};
    }

    method AllocateContainerIP(id: Id, req: Requested, loads: bool, fault: SaveFault) returns (reply: Reply)
      requires V4Net(net)
      modifies this`file, this`temp
      ensures Performed(net, old(Disk(file, temp)), AllocateOp(id, req), loads, fault, Disk(file, temp), reply)
    {
      var loaded := Load(loads);
      if loaded.None? {
        return IoFailed;
      }
      var state := loaded.value;
      if id in state {
        return Address(state[id]);
      }
      AllocationCases(net, state, id, req);
      var used := UsedAddresses(state);
      var reserved := BuildReserved(net);
      assert used == state.Values && reserved == Reserved(net);
      if req.Parsed? {
        var broadcast := BroadcastIP(net.subnet);
        var ip := Canonical(req.ip);
        if Contains(net.subnet, req.ip) && ip != net.subnet.ip && ip != broadcast[..] && ip !in reserved && ip !in used {
          var ok := Save(state[id := ip], fault);
          return if ok then Address(ip) else IoFailed;
        }
      }
      assert !Grantable(net, state, req);
      var found := FindCandidate(net, used, reserved);
      if found.None? {
        return Exhausted;
      }
      var ok := Save(state[id := found.value], fault);
      return if ok then Address(found.value) else IoFailed;
    }

    method ReleaseContainerIP(id: Id, loads: bool, fault: SaveFault) returns (reply: Reply)
      requires V4Net(net)
      modifies this`file, this`temp
      ensures Performed(net, old(Disk(file, temp)), ReleaseOp(id), loads, fault, Disk(file, temp), reply)
      ensures reply == Done <==> loads && Decode(old(file)).Some? && (id in Decode(old(file)).value ==> fault.Intact?)
      ensures reply == Done ==> Decode(file) == Some(Decode(old(file)).value - {id})
      ensures reply != Done ==> file == old(file)
    {
      var loaded := Load(loads);
      if loaded.None? {
        return IoFailed;
      }
      if id !in loaded.value {
        assert loaded.value - {id} == loaded.value;
        return Done;
      }
      var ok := Save(loaded.value - {id}, fault);
      return if ok then Done else IoFailed;
    }

    method GetAllocatedIP(id: Id, loads: bool) returns (reply: Reply)
      requires V4Net(net)
      ensures Performed(net, Disk(file, temp), GetOp(id), loads, Intact, Disk(file, temp), reply)
      ensures loads && Decode(file).Some? ==>
                reply == if id in Decode(file).value then Address(Decode(file).value[id]) else NoneHeld
    {
      var loaded := Load(loads);
      if loaded.None? {
        return IoFailed;
      }
      return if id in loaded.value then Address(loaded.value[id]) else NoneHeld;
    }
  }
}
