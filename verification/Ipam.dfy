/**
 The IP allocator: a table from container to address kept in one file. The search over candidate
 addresses, the requested-address path, and what every run of operations keeps.
 Addresses are held in the form they are printed in (`Ipv4.Canonical`), so that comparing printed
 addresses is comparing byte strings.
 */
module Ipam {
  import opened Common
  import opened Ipv4

  type Id = string
  type Table = map<Id, Bytes>

  /** The requested address as the allocator sees it: none, text that is no address, or an address. */
  datatype Requested = Unspecified | Malformed | Parsed(ip: Bytes)

  /** The configured block, and the gateway and bridge addresses when their text is an address. */
  datatype Net = Net(subnet: Subnet, gateway: Option<Bytes>, bridge: Option<Bytes>)

  datatype Op = AllocateOp(id: Id, req: Requested) | ReleaseOp(id: Id) | GetOp(id: Id)
  datatype Reply = Address(ip: Bytes) | Exhausted | Done | NoneHeld | IoFailed

  /** What an operation does to the table, what it answers, and whether it writes the file. */
  datatype Outcome = Outcome(table: Table, reply: Reply, writes: bool)

  /** A block of 4-byte addresses that is not the whole address space. */
  ghost predicate V4Net(net: Net) {
    exists p :: 1 <= p && IsSubnet(net.subnet, 4, p)
  }

  function LastAddress(net: Net): Bytes
    requires |net.subnet.ip| == |net.subnet.mask|
  {
    Broadcast(net.subnet.ip, net.subnet.mask)
  }

  function OptionSet(ip: Option<Bytes>): set<Bytes> {
    match ip
    case None => {}
    case Some(a) => {Canonical(a)}
  }

  /** Addresses never handed out. */
  function Reserved(net: Net): set<Bytes>
    requires |net.subnet.ip| == |net.subnet.mask|
  {
    OptionSet(net.gateway) + OptionSet(net.bridge) + {net.subnet.ip, LastAddress(net)}
  }

  ghost predicate Usable(net: Net, ip: Bytes)
    requires |net.subnet.ip| == |net.subnet.mask|
  {
    |ip| == 4 && Contains(net.subnet, ip) && ip !in Reserved(net)
  }

  ghost predicate Free(net: Net, used: set<Bytes>, ip: Bytes)
    requires |net.subnet.ip| == |net.subnet.mask|
  {
    Usable(net, ip) && ip !in used
  }

  // ----- the block as an interval

  ghost function Lo(net: Net): nat {
    Val(net.subnet.ip)
  }

  ghost function Hi(net: Net): nat
    requires |net.subnet.ip| == |net.subnet.mask|
  {
    Val(LastAddress(net))
  }

  lemma BlockBounds(net: Net)
    requires V4Net(net)
    ensures |net.subnet.ip| == |net.subnet.mask| == 4
    ensures Lo(net) <= Hi(net) < Span(4)
    ensures 0 < Lo(net) || Hi(net) + 1 < Span(4)
    ensures exists p :: IsSubnet(net.subnet, 4, p)
  {
    var sn := net.subnet;
    var p :| 1 <= p && IsSubnet(sn, 4, p);
    BroadcastValue(sn.ip, sn.mask, p);
    ValBound(LastAddress(net));
    HalfSpace(p);
  }

  /** Containment is the interval from the network to the broadcast address, and the interval is not
      the whole space, so the successor of its last address lies outside even when it wraps to zero. */
  lemma BlockFacts(net: Net, x: Bytes)
    requires V4Net(net) && |x| == 4
    ensures |net.subnet.ip| == |net.subnet.mask| == 4
    ensures Contains(net.subnet, x) <==> Lo(net) <= Val(x) <= Hi(net)
    ensures Lo(net) <= Hi(net) < Span(4)
    ensures 0 < Lo(net) || Hi(net) + 1 < Span(4)
    ensures Val(Next(x)) == if Val(x) + 1 == Span(4) then 0 else Val(x) + 1
  {
    BlockBounds(net);
    NextWraps(x);
    var sn := net.subnet;
    var p :| IsSubnet(sn, 4, p);
    ContainmentIsInterval(sn.ip, sn.mask, p, x);
  }

  /** A block with a prefix of at least one bit is smaller than the address space. */
  lemma HalfSpace(p: nat)
    requires 1 <= p <= 32
    ensures Pow2(32 - p) < Span(4)
  {
    WholeSpace();
    Pow2Monotone(32 - p, 32);
  }

  lemma WholeSpace()
    ensures Pow2(32) == Span(4)
  {
    Pow2Plus8(0);
    Pow2Plus8(8);
    Pow2Plus8(16);
    Pow2Plus8(24);
    assert Span(2) == 65536;
  }

  // ----- the automatic search

  predicate Skipped(net: Net, used: set<Bytes>, c: Bytes)
    requires |net.subnet.ip| == |net.subnet.mask|
  {
    c == LastAddress(net) || c in Reserved(net) || c in used
  }

  /** The search from candidate c upwards. */
  function SearchFrom(net: Net, used: set<Bytes>, c: Bytes): Option<Bytes>
    requires V4Net(net) && |c| == 4
    decreases if Lo(net) <= Val(c) <= Hi(net) then Hi(net) - Val(c) + 1 else 0
  {
    BlockFacts(net, c);
    if !Contains(net.subnet, c) then None
    else if Skipped(net, used, c) then
      BlockFacts(net, Next(c));
      SearchFrom(net, used, Next(c))
    else Some(c)
  }

  function AutoSearch(net: Net, used: set<Bytes>): Option<Bytes>
    requires V4Net(net)
  {
    SearchFrom(net, used, Next(net.subnet.ip))
  }

  /** After an address of the block, the search finds the least free address above it, if any. */
  lemma {:induction false} SearchAfter(net: Net, used: set<Bytes>, prev: Bytes)
    requires V4Net(net) && |prev| == 4 && Lo(net) <= Val(prev) <= Hi(net)
    ensures match SearchFrom(net, used, Next(prev))
            case Some(r) => && Free(net, used, r)
                            && forall x :: Free(net, used, x) && Val(x) > Val(prev) ==> Val(r) <= Val(x)
            case None => forall x :: Free(net, used, x) ==> Val(x) <= Val(prev)
    decreases Hi(net) - Val(prev)
  {
    var c := Next(prev);
    BlockFacts(net, prev);
    BlockFacts(net, c);
    if Contains(net.subnet, c) {
      if Skipped(net, used, c) {
        SearchAfter(net, used, c);
      }
      forall x | Free(net, used, x) && Val(x) > Val(prev)
        ensures Val(c) <= Val(x)
        ensures Skipped(net, used, c) ==> Val(c) < Val(x)
      {
        if Val(x) == Val(c) {
          ValInjective(x, c);
        }
      }
    } else {
      forall x | Free(net, used, x)
        ensures Val(x) <= Val(prev)
      {
        BlockFacts(net, x);
      }
    }
  }

  /** The search returns the numerically least free address of the block, and fails only if none is free. */
  lemma AutoSearchIsLeast(net: Net, used: set<Bytes>)
    requires V4Net(net)
    ensures match AutoSearch(net, used)
            case Some(r) => Free(net, used, r) && forall x :: Free(net, used, x) ==> Val(r) <= Val(x)
            case None => forall x :: !Free(net, used, x)
  {
    BlockFacts(net, net.subnet.ip);
    SearchAfter(net, used, net.subnet.ip);
    forall x | Free(net, used, x)
      ensures Val(x) > Lo(net)
    {
      BlockFacts(net, x);
      if Val(x) == Lo(net) {
        ValInjective(x, net.subnet.ip);
      }
    }
  }

  ghost function Candidate(net: Net, k: nat): Bytes {
    if k == 0 then Next(net.subnet.ip) else Next(Candidate(net, k - 1))
  }

  lemma WholeSpaceContains(sn: Subnet, x: Bytes)
    requires IsSubnet(sn, 4, 0) && |x| == 4
    ensures Contains(sn, x)
  {
    BroadcastValue(sn.ip, sn.mask, 0);
    ContainmentIsInterval(sn.ip, sn.mask, 0, x);
    ValBound(x);
    ValBound(Broadcast(sn.ip, sn.mask));
    WholeSpace();
  }

  lemma WholeSpaceCandidate(net: Net, used: set<Bytes>, k: nat)
    requires IsSubnet(net.subnet, 4, 0)
    ensures Contains(net.subnet, Candidate(net, k))
    ensures Skipped(net, used, Candidate(net, k)) <==> !Free(net, used, Candidate(net, k))
  {
    CandidateLength(net, k);
    WholeSpaceContains(net.subnet, Candidate(net, k));
  }

  /** Why the prefix length must be at least one: in a block that is the whole address space, with no
      address free, every candidate is inside the block and skipped, so the loop never leaves. */
  lemma WholeSpaceNeverEnds(net: Net, used: set<Bytes>, k: nat)
    requires IsSubnet(net.subnet, 4, 0)
    requires forall x :: !Free(net, used, x)
    ensures Contains(net.subnet, Candidate(net, k)) && Skipped(net, used, Candidate(net, k))
  {
    WholeSpaceCandidate(net, used, k);
  }

  lemma {:induction false} CandidateValue(net: Net, k: nat)
    requires IsSubnet(net.subnet, 4, 0) && k + 1 < Span(4)
    ensures Val(Candidate(net, k)) == k + 1
  {
    if k == 0 {
      WholeSpaceStart(net.subnet);
      NextWraps(net.subnet.ip);
    } else {
      CandidateValue(net, k - 1);
      CandidateLength(net, k - 1);
      NextWraps(Candidate(net, k - 1));
    }
  }

  lemma WholeSpaceStart(sn: Subnet)
    requires IsSubnet(sn, 4, 0)
    ensures Val(sn.ip) == 0
  {
    BroadcastValue(sn.ip, sn.mask, 0);
    ValBound(Broadcast(sn.ip, sn.mask));
    ValBound(sn.ip);
    WholeSpace();
  }

  /** In such a block the search comes to an address it does not skip exactly when some address is free. */
  lemma WholeSpaceEndsExactly(net: Net, used: set<Bytes>)
    requires IsSubnet(net.subnet, 4, 0)
    ensures (exists k :: !Skipped(net, used, Candidate(net, k))) <==> (exists x :: Free(net, used, x))
  {
    if k :| !Skipped(net, used, Candidate(net, k)) {
      WholeSpaceCandidate(net, used, k);
    }
    if x :| Free(net, used, x) {
      WholeSpaceStart(net.subnet);
      ValBound(x);
      if Val(x) == 0 {
        ValInjective(x, net.subnet.ip);
      }
      var k := Val(x) - 1;
      CandidateValue(net, k);
      CandidateLength(net, k);
      ValInjective(x, Candidate(net, k));
      assert !Skipped(net, used, Candidate(net, k));
    }
  }

  lemma {:induction false} CandidateLength(net: Net, k: nat)
    ensures |Candidate(net, k)| == |net.subnet.ip|
  {
    if k > 0 {
      CandidateLength(net, k - 1);
    }
  }

  /** The candidate loop, on byte arrays as in the allocator. */
  method FindCandidate(net: Net, used: set<Bytes>, reserved: set<Bytes>) returns (r: Option<Bytes>)
    requires V4Net(net)
    requires |net.subnet.ip| == |net.subnet.mask| == 4 && reserved == Reserved(net)
    ensures r == AutoSearch(net, used)
    ensures r.Some? ==> Free(net, used, r.value) && forall x :: Free(net, used, x) ==> Val(r.value) <= Val(x)
    ensures r.None? ==> forall x :: !Free(net, used, x)
  {
    AutoSearchIsLeast(net, used);
    var first := new Byte[4](i requires 0 <= i < 4 => net.subnet.ip[i]);
    assert first[..] == net.subnet.ip;
    var candidate := NextIP(first);
    BlockFacts(net, candidate[..]);
    while Contains(net.subnet, candidate[..])
      invariant candidate.Length == 4
      invariant SearchFrom(net, used, candidate[..]) == AutoSearch(net, used)
      decreases if Lo(net) <= Val(candidate[..]) <= Hi(net) then Hi(net) - Val(candidate[..]) + 1 else 0
    {
      BlockFacts(net, candidate[..]);
      var broadcast := BroadcastIP(net.subnet);
      var c := candidate[..];
      if c != broadcast[..] && c !in reserved && c !in used {
        return Some(c);
      }
      BlockFacts(net, Next(c));
      candidate := NextIP(candidate);
    }
    return None;
  }

  // ----- the operations as an atomic table

  predicate Grantable(net: Net, table: Table, req: Requested)
    requires |net.subnet.ip| == |net.subnet.mask|
  {
    && req.Parsed?
    && Contains(net.subnet, req.ip)
    && Canonical(req.ip) != net.subnet.ip && Canonical(req.ip) != LastAddress(net)
    && Canonical(req.ip) !in Reserved(net)
    && Canonical(req.ip) !in table.Values
  }

  /** Each operation as one indivisible step on the table. */
  function Atomic(net: Net, table: Table, op: Op): Outcome
    requires V4Net(net)
  {
    match op
    case AllocateOp(id, req) =>
      if id in table then Outcome(table, Address(table[id]), false)
      else
        BlockFacts(net, [0, 0, 0, 0]);
        if Grantable(net, table, req) then
          Outcome(table[id := Canonical(req.ip)], Address(Canonical(req.ip)), true)
        else
          (match AutoSearch(net, table.Values)
           case Some(ip) => Outcome(table[id := ip], Address(ip), true)
           case None => Outcome(table, Exhausted, false))
    case ReleaseOp(id) =>
      if id in table then Outcome(table - {id}, Done, true) else Outcome(table, Done, false)
    case GetOp(id) =>
      Outcome(table, if id in table then Address(table[id]) else NoneHeld, false)
  }

  function RunOps(net: Net, table: Table, ops: seq<Op>): Table
    requires V4Net(net)
  {
    if ops == [] then table
    else Atomic(net, RunOps(net, table, ops[..|ops| - 1]), ops[|ops| - 1]).table
  }

  /** No two containers share an address, and every held address is usable. */
  ghost predicate TableOk(net: Net, table: Table)
    requires V4Net(net)
  {
    BlockFacts(net, [0, 0, 0, 0]);
    && (forall a, b :: a in table && b in table && table[a] == table[b] ==> a == b)
    && (forall a :: a in table ==> Usable(net, table[a]))
  }

  lemma InsertKeepsTableOk(net: Net, table: Table, id: Id, ip: Bytes)
    requires V4Net(net) && TableOk(net, table) && id !in table
    requires |net.subnet.ip| == |net.subnet.mask| && Free(net, table.Values, ip)
    ensures TableOk(net, table[id := ip])
  {
    assert forall a :: a in table ==> table[a] in table.Values;
  }

  lemma TableOkStep(net: Net, table: Table, op: Op)
    requires V4Net(net) && TableOk(net, table)
    ensures TableOk(net, Atomic(net, table, op).table)
  {
    var o := Atomic(net, table, op);
    if op.AllocateOp? && op.id !in table && o.reply.Address? {
      BlockFacts(net, [0, 0, 0, 0]);
      AutoSearchIsLeast(net, table.Values);
      InsertKeepsTableOk(net, table, op.id, o.reply.ip);
    }
  }

  /** Over every run of operations from the empty table, addresses stay distinct and usable. */
  lemma {:induction false} EveryRunKeepsTableOk(net: Net, ops: seq<Op>)
    requires V4Net(net)
    ensures TableOk(net, RunOps(net, map[], ops))
  {
    if ops != [] {
      EveryRunKeepsTableOk(net, ops[..|ops| - 1]);
      TableOkStep(net, RunOps(net, map[], ops[..|ops| - 1]), ops[|ops| - 1]);
    }
  }

  /** A held address stays the container's own until that container is released, whatever others do. */
  lemma {:induction false} AddressConstantUntilRelease(net: Net, table: Table, id: Id, ops: seq<Op>)
    requires V4Net(net) && id in table
    requires ReleaseOp(id) !in ops
    ensures id in RunOps(net, table, ops) && RunOps(net, table, ops)[id] == table[id]
    ensures forall req :: Atomic(net, RunOps(net, table, ops), AllocateOp(id, req)).reply == Address(table[id])
  {
    if ops != [] {
      AddressConstantUntilRelease(net, table, id, ops[..|ops| - 1]);
    }
  }

  /** A requested address never decides whether allocation succeeds. It is granted exactly when the
      container holds none and the address is usable and free; otherwise the call is the same as one
      without a request. */
  lemma RequestOnlyPrefers(net: Net, table: Table, id: Id, req: Requested)
    requires V4Net(net)
    ensures |net.subnet.ip| == |net.subnet.mask|
    ensures
      var asked := Atomic(net, table, AllocateOp(id, req));
      var plain := Atomic(net, table, AllocateOp(id, Unspecified));
      && (asked.reply.Address? <==> plain.reply.Address?)
      && (id !in table && req.Parsed? && Free(net, table.Values, Canonical(req.ip)) ==>
            asked == Outcome(table[id := Canonical(req.ip)], Address(Canonical(req.ip)), true))
      && (!(id !in table && req.Parsed? && Free(net, table.Values, Canonical(req.ip))) ==> asked == plain)
  {
    BlockFacts(net, [0, 0, 0, 0]);
    AutoSearchIsLeast(net, table.Values);
    if req.Parsed? {
      assert Grantable(net, table, req) <==> Free(net, table.Values, Canonical(req.ip));
    }
  }

  // ----- a requested address, by its bytes

  /** What a 4-byte address is written behind when its text is parsed into sixteen bytes. */
  const MAPPED: Bytes := [0, 0, 0, 0, 0, 0, 0, 0, 0, 0, 0xFF, 0xFF]

  /** The sixteen-byte form of a 4-byte address is the same request. */
  lemma MappedIsSame(net: Net, table: Table, id: Id, a: Bytes)
    requires V4Net(net) && |a| == 4
    ensures Atomic(net, table, AllocateOp(id, Parsed(MAPPED + a))) == Atomic(net, table, AllocateOp(id, Parsed(a)))
  {
    var m := MAPPED + a;
    assert m[..12] == MAPPED && m[12..] == a;
    BlockFacts(net, a);
  }

  /** An address in neither form is never granted: the call is one without a request. */
  lemma OtherFormsAreRefused(net: Net, table: Table, id: Id, b: Bytes)
    requires V4Net(net) && |b| != 4
    requires |b| == 16 ==> b[..12] != MAPPED
    ensures Atomic(net, table, AllocateOp(id, Parsed(b))) == Atomic(net, table, AllocateOp(id, Unspecified))
  {
    BlockFacts(net, [0, 0, 0, 0]);
  }

  /** The address is none of the configured ones, in either form. */
  predicate NotConfigured(net: Net, a: Bytes) {
    && net.gateway != Some(a) && net.gateway != Some(MAPPED + a)
    && net.bridge != Some(a) && net.bridge != Some(MAPPED + a)
  }

  /** A container without an address that asks for one strictly inside the block, not configured and not held
      by anyone, gets that one. */
  lemma RequestIsGranted(net: Net, table: Table, id: Id, a: Bytes)
    requires V4Net(net) && |a| == 4 && id !in table && a !in table.Values
    requires |net.subnet.ip| == |net.subnet.mask| && Lo(net) < Val(a) < Hi(net) && NotConfigured(net, a)
    ensures Atomic(net, table, AllocateOp(id, Parsed(a))) == Outcome(table[id := a], Address(a), true)
    ensures Atomic(net, table, AllocateOp(id, Parsed(MAPPED + a))) == Outcome(table[id := a], Address(a), true)
  {
    BlockFacts(net, a);
    NotThatForm(net.gateway, a);
    NotThatForm(net.bridge, a);
    MappedIsSame(net, table, id, a);
  }

  lemma NotThatForm(ip: Option<Bytes>, a: Bytes)
    requires |a| == 4 && ip != Some(a) && ip != Some(MAPPED + a)
    ensures a !in OptionSet(ip)
  {
    if ip.Some? && |ip.value| == 16 && ip.value[..12] == MAPPED {
      assert ip.value == MAPPED + ip.value[12..];
    }
  }

  /** A lookup answers the address a container has, or that it has none. */
  lemma GetAnswers(net: Net, table: Table, id: Id)
    requires V4Net(net)
    ensures Atomic(net, table, GetOp(id)).table == table
    ensures forall ip :: Atomic(net, table, GetOp(id)).reply == Address(ip) <==> id in table && table[id] == ip
    ensures Atomic(net, table, GetOp(id)).reply == NoneHeld <==> id !in table
  {
  }

  // ----- capacity

  ghost function Values(s: set<Bytes>): set<int> {
    set ip | ip in s && |ip| == 4 :: Val(ip)
  }

  /** The usable addresses of the block, by value. */
  ghost function UsableValues(net: Net): set<int>
    requires V4Net(net)
  {
    BlockFacts(net, [0, 0, 0, 0]);
    Interval(Lo(net), Hi(net) + 1) - Values(Reserved(net))
  }

  lemma UsableByValue(net: Net, ip: Bytes)
    requires V4Net(net) && |ip| == 4
    ensures |net.subnet.ip| == |net.subnet.mask|
    ensures Usable(net, ip) <==> Val(ip) in UsableValues(net)
  {
    BlockFacts(net, ip);
    if Val(ip) in Values(Reserved(net)) {
      var r :| r in Reserved(net) && |r| == 4 && Val(r) == Val(ip);
      ValInjective(r, ip);
    }
  }

  ghost function HeldValues(table: Table): set<int> {
    Values(table.Values)
  }

  /** A table without shared addresses holds as many addresses as it has containers. */
  lemma {:induction false} HeldCount(table: Table)
    requires forall a :: a in table ==> |table[a]| == 4
    requires forall a, b :: a in table && b in table && table[a] == table[b] ==> a == b
    ensures |HeldValues(table)| == |table|
    decreases |table|
  {
    if table.Keys == {} {
      assert table.Values == {};
    } else {
      var id :| id in table;
      var rest := table - {id};
      assert rest.Keys == table.Keys - {id};
      HeldCount(rest);
      assert forall v :: v in table.Values ==> v == table[id] || v in rest.Values by {
        forall v | v in table.Values
          ensures v == table[id] || v in rest.Values
        {
          var a :| a in table && table[a] == v;
          if a != id {
            assert a in rest && rest[a] == v;
          }
        }
      }
      assert table.Values == rest.Values + {table[id]};
      assert HeldValues(table) == HeldValues(rest) + {Val(table[id])};
      if Val(table[id]) in HeldValues(rest) {
        var ip :| ip in rest.Values && |ip| == 4 && Val(ip) == Val(table[id]);
        ValInjective(ip, table[id]);
        assert false;
      }
    }
  }

  /** Every held address is usable, so at most as many are held as are usable. */
  lemma HeldIsUsable(net: Net, table: Table)
    requires V4Net(net) && TableOk(net, table)
    ensures |net.subnet.ip| == |net.subnet.mask|
    ensures HeldValues(table) <= UsableValues(net)
    ensures |HeldValues(table)| == |table| <= |UsableValues(net)|
    ensures |table| == |UsableValues(net)| ==> HeldValues(table) == UsableValues(net)
  {
    BlockFacts(net, [0, 0, 0, 0]);
    HeldCount(table);
    forall v | v in HeldValues(table)
      ensures v in UsableValues(net)
    {
      var ip :| ip in table.Values && |ip| == 4 && Val(ip) == v;
      UsableByValue(net, ip);
    }
    SubsetSize(HeldValues(table), UsableValues(net));
  }

  /** While an address is free, fewer are held than are usable. */
  lemma FreeMeansRoom(net: Net, table: Table, r: Bytes)
    requires V4Net(net) && TableOk(net, table)
    requires |net.subnet.ip| == |net.subnet.mask| && Free(net, table.Values, r)
    ensures |table| < |UsableValues(net)|
  {
    HeldIsUsable(net, table);
    UsableByValue(net, r);
    if Val(r) in HeldValues(table) {
      var ip :| ip in table.Values && |ip| == 4 && Val(ip) == Val(r);
      ValInjective(ip, r);
    }
  }

  /** With no address free, every usable one is held. */
  lemma NoneFreeMeansFull(net: Net, table: Table)
    requires V4Net(net) && TableOk(net, table)
    requires |net.subnet.ip| == |net.subnet.mask| && forall x :: !Free(net, table.Values, x)
    ensures |table| == |UsableValues(net)|
  {
    HeldIsUsable(net, table);
    BlockFacts(net, [0, 0, 0, 0]);
    forall v | v in UsableValues(net)
      ensures v in HeldValues(table)
    {
      ValFromVal(4, v);
      UsableByValue(net, FromVal(4, v));
      assert !Free(net, table.Values, FromVal(4, v));
    }
    assert HeldValues(table) == UsableValues(net);
  }

  /** From a table that a run can reach, a new container gets an address exactly while fewer
      containers hold addresses than there are usable addresses, whatever it asks for. */
  lemma CapacityIsExact(net: Net, table: Table, id: Id, req: Requested)
    requires V4Net(net) && TableOk(net, table) && id !in table
    ensures Atomic(net, table, AllocateOp(id, req)).reply.Address? <==> |table| < |UsableValues(net)|
  {
    RequestOnlyPrefers(net, table, id, req);
    AutoSearchIsLeast(net, table.Values);
    match AutoSearch(net, table.Values)
    case Some(r) => FreeMeansRoom(net, table, r);
    case None => NoneFreeMeansFull(net, table);
  }

  /** The network the runtime is configured with: 10.20.0.0/24, gateway and bridge both 10.20.0.1. */
  const GOCKER_NET :=
    Net(Subnet([10, 20, 0, 0], [255, 255, 255, 0]), Some([10, 20, 0, 1]), Some([10, 20, 0, 1]))

  lemma Slash16(a: Byte, b: Byte, ip: Bytes, mask: Bytes)
    requires ip == [a] + [b] && mask == [255] + [255]
    ensures IsSubnet(Subnet(ip, mask), 2, 16)
    ensures Broadcast(ip, mask) == ip
  {
    SnocFull([], [], a, 255);
    assert [] + [a] == [a];
    SnocFull([a], [255], b, 255);
  }

  /** A block whose three leading bytes are fixed. */
  lemma Slash24(a: Byte, b: Byte, c: Byte, sn: Subnet)
    requires sn == Subnet([a, b, c, 0], [255, 255, 255, 0])
    ensures IsSubnet(sn, 4, 24)
    ensures Broadcast(sn.ip, sn.mask) == [a, b, c, 255]
  {
    var i2, m2 := [a] + [b], [255] + [255];
    Slash16(a, b, i2, m2);
    SnocFull(i2, m2, c, 255);
    SnocHost(i2 + [c], m2 + [255], 24, 0, 0);
    assert sn.ip == i2 + [c] + [0] && sn.mask == m2 + [255] + [0];
  }

  lemma GockerNetFacts()
    ensures V4Net(GOCKER_NET)
    ensures Lo(GOCKER_NET) == 0x0A140000 && LastAddress(GOCKER_NET) == [10, 20, 0, 255]
  {
    Slash24(10, 20, 0, GOCKER_NET.subnet);
    GockerValue(GOCKER_NET.subnet.ip);
  }

  lemma GockerValue(ip: Bytes)
    requires |ip| == 4 && ip[..3] == [10, 20, 0]
    ensures Val(ip) == 0x0A140000 + ip[3] as int
  {
    assert ip[..3][..2] == [10, 20] && ip[..3][..2][..1] == [10];
    assert Val(ip[..3][..2][..1]) == 10;
    assert Val(ip[..3][..2]) == 2580;
  }

  /** The configured /24 has room for exactly 253 containers, over every run. */
  lemma ConfiguredCapacity(ops: seq<Op>, id: Id, req: Requested)
    ensures V4Net(GOCKER_NET)
    ensures
      var table := RunOps(GOCKER_NET, map[], ops);
      id !in table ==>
        (Atomic(GOCKER_NET, table, AllocateOp(id, req)).reply.Address? <==> |table| < 253)
  {
    GockerNetFacts();
    var net := GOCKER_NET;
    var table := RunOps(net, map[], ops);
    EveryRunKeepsTableOk(net, ops);
    ReservedOfGocker();
    var all := Interval(Lo(net), Hi(net) + 1);
    var reserved := {Lo(net), Lo(net) + 1, Lo(net) + 255};
    assert reserved <= all;
    assert |all - reserved| == 253;
    if id !in table {
      CapacityIsExact(net, table, id, req);
    }
  }

  /** In the configured block, 10.20.0.2 to 10.20.0.254 are granted to whoever asks for one while nobody holds
      it, given as four bytes or as sixteen. */
  lemma ConfiguredRequest(table: Table, id: Id, x: Byte)
    requires 2 <= x <= 254 && id !in table && [10, 20, 0, x] !in table.Values
    ensures V4Net(GOCKER_NET)
    ensures
      var granted := Outcome(table[id := [10, 20, 0, x]], Address([10, 20, 0, x]), true);
      && Atomic(GOCKER_NET, table, AllocateOp(id, Parsed([10, 20, 0, x]))) == granted
      && Atomic(GOCKER_NET, table, AllocateOp(id, Parsed([0, 0, 0, 0, 0, 0, 0, 0, 0, 0, 0xFF, 0xFF, 10, 20, 0, x]))) == granted
  {
    GockerNetFacts();
    ReservedOfGocker();
    var a: Bytes := [10, 20, 0, x];
    GockerValue(a);
    assert a != [10, 20, 0, 1] && |MAPPED + a| == 16;
    RequestIsGranted(GOCKER_NET, table, id, a);
    assert MAPPED + a == [0, 0, 0, 0, 0, 0, 0, 0, 0, 0, 0xFF, 0xFF, 10, 20, 0, x];
  }

  lemma ReservedOfGocker()
    ensures V4Net(GOCKER_NET)
    ensures Hi(GOCKER_NET) == Lo(GOCKER_NET) + 255
    ensures Values(Reserved(GOCKER_NET)) == {Lo(GOCKER_NET), Lo(GOCKER_NET) + 1, Lo(GOCKER_NET) + 255}
  {
    GockerNetFacts();
    var a: Bytes, b: Bytes, c: Bytes := [10, 20, 0, 0], [10, 20, 0, 1], [10, 20, 0, 255];
    GockerValue(a);
    GockerValue(b);
    GockerValue(c);
    var r := Reserved(GOCKER_NET);
    assert r == {a, b, c};
    assert a in r && b in r && c in r;
  }
}
