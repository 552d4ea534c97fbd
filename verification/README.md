# Gocker, modelled and verified

Gocker is a small container runtime with an IP allocator, a container store, an image store and an
eBPF-based metrics pipeline. This project models the parts of it that keep state and proves, for every
input, every run and every interleaving, what they promise.

- `Ipv4.dfy`, `Ipam.dfy`, `IpamStore.dfy`, `IpamConcurrent.dfy`: the allocator, from the byte loops over
  addresses (blocks as in section 3.1 of RFC 4632, broadcast as in section 7 of RFC 919) to threads that
  lock, load, write a temporary file, rename and crash.
- `SchedMonitor.dfy`: the scheduler monitor, a shared bounded hash map charged by many CPUs.
- `BpfCommon.dfy`, `BpfAccounting.dfy`, `BpfReference.dfy`, `BpfObjects.dfy`, `Syscalls.dfy`: the metrics
  programs: subtree filter, sampling, pid cache, per-CPU totals, entry and exit pairing; and what they should
  count, read off the probes alone.
- `Collector.dfy`, `MemoryFaults.dfy`, `Pipeline.dfy`, `SyscallPipeline.dfy`: the collector that turns kernel
  totals into exported counters, and the kernel side and the collector taken together.
- `CgroupTree.dfy`, `Filters.dfy`: the cgroup hierarchy, the filters over it, and how they agree and differ.
- `Lifecycle.dfy`, `RecordHistory.dfy`, `Runtime.dfy`, `RuntimeSteps.dfy`, `AddressOverlap.dfy`: containers
  through run, create, start, stop, adjust and remove: as steps that overlap, what is in their records over any
  run, as the straight-line code, the one as a stretch of the other, and a run in which two operations go by
  one address.
- `Images.dfy`, `Strings.dfy`: image references and the manifest.
- `Common.dfy`: sums, powers of two and other shared vocabulary.

Where the source changes state, the model has a class whose methods are proved against a specification
function; the properties over runs are lemmas about that function. A run is a sequence of steps; a step an
actor is not ready for changes nothing, so "for every sequence of steps" is "for every interleaving". The
reference side of the metrics proofs reads a trace backwards (which configuration was in force, which cgroup
a pid was last seen in, which entry an exit belongs to) and does not mention the maps of the programs.

Results that differ from what one might expect of the system:

- The automatic search needs a prefix length of at least one. In a block that is the whole address space with
  nothing free it would never end, and it ends there exactly when something is free
  (`Ipam.WholeSpaceNeverEnds`, `Ipam.WholeSpaceEndsExactly`). The comment on the allocator speaks of the
  "next" available address; the code returns the least free one.
- An image argument is its own manifest key exactly when it contains one colon. A pull of any other argument
  is stored under a key that no run or start of that argument looks up: `alpine` is not found,
  `localhost:5000/app` is (`Images.ArgumentIsItsOwnKey`, `Images.PulledIsFound`, `Images.AlpineAndLocalApp`).
- Exported memory faults are the growth of the larger of `pgfault` and `pgmajfault`, plus what the major count or
  the minor count left over fell between readings, less what absences from the allow-list hide. Against `pgfault`
  alone they over-report exactly when the growth of the excess of major faults over faults and the falls are
  together more than the absences hid (`MemoryFaults.OverReportedExactlyByExcess`). Readings
  that never fall do not rule the falls out: `pgfault` at ten with first no and then five major faults exports five
  (`MemoryFaults.FallingMinorOverReports`; the other causes in `MemoryFaults.MajorAboveAllOverReports` and
  `MemoryFaults.DropHidesGrowth`). While the two counts never fall and the last reading has no excess, the export
  is at most the growth.
- The collector lists the target cgroup and its direct children only, while the kernel side counts the whole
  subtree, which is also what the metrics documentation promises. The list covers the subtree exactly when no
  child has children (`CgroupTree.CollectorCoversSubtree`); a cgroup further down is counted and never exported
  (`Filters.NestedIsNeverExported`, with an example in `Filters.LeafIsCountedNotExported`).
- A cgroup that leaves the allow-list, is scanned while off it, and comes back has its whole total exported
  again (`Collector.ReturnedIsExportedAgain`). Right after a scan that finds a cgroup on the
  list, the exported counter is the kernel total exactly when no earlier stretch on the list closed with
  something counted (`Collector.ExportedOnceExactly`).
- The table never gives one address to two containers, but two operations can go by one address: a stop frees
  the address of a run that still waits for its child, and a new run that asks alike is
  given it (`AddressOverlap.StoppedRunSharesAddress`). Until someone releases their addresses, they differ
  (`Lifecycle.UnreleasedAddressesDiffer`).

## Model

| member | source | states |
|---|---|---|
| `Ipv4.NextIP` | internal/network/ipam.go:211-220 | the copy's bytes are those of the carry from the last byte; the argument is not changed |
| `Ipv4.NextIsSuccessor` | internal/network/ipam.go:211-220 | the carry loop is addition of one modulo 256 to the address length |
| `Ipv4.NextWraps` | internal/network/ipam.go:211-220 | the successor of the last address of a length is zero, otherwise the next integer |
| `Ipv4.BroadcastIP` | internal/network/ipam.go:222-228 | the loop yields the network address with every host bit set |
| `Ipv4.BroadcastValue` | internal/network/ipam.go:222-228 | the broadcast address is network + 2^(bits - prefix) - 1, for every length and prefix |
| `Ipv4.ContainmentIsInterval` | internal/network/ipam.go:52-89 | masked bytewise containment is the interval from network to broadcast |
| `Ipam.SearchAfter` | internal/network/ipam.go:89-111 | from any address of the block, the rest of the search finds the least free address above it |
| `Ipam.AutoSearchIsLeast` | internal/network/ipam.go:89-113 | the search returns the least address that is in the block, not reserved and not used; it fails only when none exists |
| `Ipam.FindCandidate` | internal/network/ipam.go:89-113 | the candidate loop over byte arrays terminates for every prefix of at least one, wrapping blocks included, and returns that least address |
| `Ipam.WholeSpaceNeverEnds` | internal/network/ipam.go:89-99 | with prefix zero and nothing free, every candidate is inside the block and skipped |
| `Ipam.WholeSpaceEndsExactly` | internal/network/ipam.go:89-99 | in a block that is the whole address space the search comes to an address it takes if and only if one is free |
| `Ipam.TableOkStep` | internal/network/ipam.go:34-133 | each operation keeps addresses distinct and usable |
| `Ipam.EveryRunKeepsTableOk` | internal/network/ipam.go:34-133 | over every run from the empty table, no two containers share an address and no network, broadcast, gateway or bridge address is held |
| `Ipam.AddressConstantUntilRelease` | internal/network/ipam.go:34-36 | a container's address is the same until its own release, whatever other containers do and whatever it asks for again |
| `Ipam.RequestOnlyPrefers` | internal/network/ipam.go:50-113 | a requested address never changes whether allocation succeeds; it is granted exactly when usable and free and the container has none, otherwise the call is that without a request |
| `Ipam.RequestIsGranted` | internal/network/ipam.go:50-64 | a container without an address that asks for one strictly inside the block, not configured and not held, gets exactly that one, in its 4-byte or its 16-byte form |
| `Ipam.MappedIsSame` | internal/network/ipam.go:51-52 | the 16-byte form of an address is the same request as its four bytes |
| `Ipam.OtherFormsAreRefused` | internal/network/ipam.go:52 | an address in neither form is never granted; the call is one without a request |
| `Ipam.GetAnswers` | internal/network/ipam.go:232-246 | a lookup answers exactly the address held, or that none is, and changes nothing |
| `Ipam.HeldCount` | internal/network/ipam.go:43-46 | a table without shared addresses holds as many addresses as containers |
| `Ipam.FreeMeansRoom` | internal/network/ipam.go:89-113 | while an address is free, fewer are held than are usable |
| `Ipam.NoneFreeMeansFull` | internal/network/ipam.go:89-113 | with none free, as many are held as are usable |
| `Ipam.CapacityIsExact` | internal/network/ipam.go:43-113 | from any reachable table a new container gets an address if and only if fewer containers hold addresses than are usable |
| `Ipam.ReservedOfGocker` | internal/network/ipam.go:194-209 | the configured block reserves exactly network, gateway/bridge and broadcast address |
| `Ipam.ConfiguredCapacity` | internal/config/constants.go:14-17 | over every run in 10.20.0.0/24, allocation for a new container succeeds if and only if fewer than 253 hold addresses |
| `Ipam.ConfiguredRequest` | internal/config/constants.go:14-17 | in 10.20.0.0/24, a free 10.20.0.2 to 10.20.0.254 is granted to whoever asks for it |
| `IpamStore.Allocator.UsedAddresses` | internal/network/ipam.go:43-46 | the loop collects exactly the addresses of the table |
| `IpamStore.Allocator.BuildReserved` | internal/network/ipam.go:194-209 | the reserved set, with absent gateway or bridge skipped |
| `IpamStore.Allocator.Load` | internal/network/ipam.go:135-163 | an absent or empty file is an empty table, torn contents and failed reads are errors |
| `IpamStore.Allocator.Save` | internal/network/ipam.go:165-192 | what the allocation file and the temporary file hold after success and after a failure to open, encode, sync or rename; the allocation file changes in the rename alone |
| `IpamStore.Allocator.AllocateContainerIP` | internal/network/ipam.go:25-114 | one call is the atomic allocation on the loaded table, saved; load and save failures answer an error and leave the file |
| `IpamStore.CallGrants` | internal/network/ipam.go:50-64 | a call that loads and saves grants such a request, and the file then has the address under the container |
| `IpamStore.Allocator.ReleaseContainerIP` | internal/network/ipam.go:118-133 | when it succeeds, and that the file then has the table without the container; releasing what is not held succeeds without writing |
| `IpamStore.Allocator.GetAllocatedIP` | internal/network/ipam.go:232-246 | answers the held address, or that none is held |
| `IpamConcurrent.EveryRunIsLinearizable` | internal/network/ipam.go:25-36 | every interleaving of threads at lock, load, write, sync, rename and unlock, with any failures and crashes, takes effect one operation at a time between call and return with the atomic answers, and the file is exactly the table those effects leave; no more operations fail than file operations did |
| `IpamConcurrent.FailuresAreFileFailures` | internal/network/ipam.go:25-31 | operations that answer an error are at most the file operations that failed, so with none every answer is the atomic one |
| `IpamConcurrent.AloneIsUninterrupted` | internal/network/ipam.go:25-133 | the calls of the store are a thread's steps without interruption, with the same files, answer and events |
| `IpamConcurrent.EveryRunKeepsFileOk` | internal/network/ipam.go:118-133 | no interleaving, failure or crash gives two containers one address or hands out a reserved one |
| `IpamConcurrent.MutualExclusion` | internal/network/ipam.go:26-27 | at most one thread is between lock and unlock |
| `IpamConcurrent.CrashBeforeOrAfter` | internal/network/ipam.go:165-192 | a crash at any point of an operation leaves the file holding the table from before it or the whole table from after it |
| `SchedMonitor.NoUpdateLost` | eBPF/sched_monitor.bpf.c:67-98 | for any number of CPUs interleaving lookup, insert, re-lookup and add, each counter of a present cgroup plus what is under way is the sum of all charges, exactly so when idle; a charged cgroup without an entry met a full map |
| `SchedMonitor.EntryIsWhatWasHeard` | eBPF/sched_monitor.bpf.c:103-224 | once idle, an entry's runtime is the time of the runtime events that filter and threshold let through, and its event counts are the numbers of switches, wakeups and migrations let through with a record; a cgroup without an entry met a full map or had none |
| `SchedMonitor.ChargedIsHeard` | eBPF/sched_monitor.bpf.c:171-197 | the charges are what the trace's tracepoints say, by filter, threshold and record |
| `SchedMonitor.AddNeverMisses` | eBPF/sched_monitor.bpf.c:73-76 | the entry a CPU is about to add to is always present |
| `SchedMonitor.FullStaysFull` | eBPF/sched_monitor.bpf.c:71-75 | entries are never lost, and a full map keeps its cgroups for good |
| `SchedMonitor.ChargedIsFired` | eBPF/sched_monitor.bpf.c:103-224 | the charges counted against are one for each tracepoint that passes filter, ring buffer and threshold |
| `SchedMonitor.AloneIsUninterrupted` | eBPF/sched_monitor.bpf.c:67-98 | the helpers run alone are the interleaved machine run without interruption |
| `SchedMonitor.StatsMap.AddRuntime` | eBPF/sched_monitor.bpf.c:67-77 | inserts zeros if absent and there is room, then adds to runtime |
| `SchedMonitor.StatsMap.Inc` | eBPF/sched_monitor.bpf.c:81-98 | which of the three counters each event code adds to, and that other codes add to none |
| `SchedMonitor.StatsMap.TpSchedSwitch` | eBPF/sched_monitor.bpf.c:104-129 | adds one context switch to the cgroup's entry when it is let through, a record was given and there is room, and changes nothing otherwise |
| `SchedMonitor.StatsMap.TpSchedWakeup` | eBPF/sched_monitor.bpf.c:133-158 | the same for one wakeup |
| `SchedMonitor.StatsMap.TpSchedStatRuntime` | eBPF/sched_monitor.bpf.c:171-197 | adds the runtime of an event at or above the threshold (any, when it is zero) of a cgroup let through, with or without a record, and nothing of others |
| `SchedMonitor.StatsMap.TpSchedMigrateTask` | eBPF/sched_monitor.bpf.c:201-224 | the same for one migration |
| `BpfCommon.AddU64` | gocker-obsv/bpf/sys.bpf.c:58-64 | insert if absent and there is room, then add to this CPU's slot |
| `BpfCommon.AddedAccounts` | gocker-obsv/bpf/sys.bpf.c:58-64 | an add raises the sum over CPUs of its own key by the amount and of no other; a key without an entry was never charged unless the map is full |
| `BpfCommon.AddedExactly` | gocker-obsv/bpf/sys.bpf.c:58-64 | an add touches this CPU's slot of its own key alone, and makes the key only when there is room |
| `BpfCommon.InsideIsInTarget` | gocker-obsv/bpf/cpu.bpf.c:58-66 | the filter passes everything when off, and otherwise the cgroups with the target on their path at the target's level |
| `BpfAccounting.RunCache` | gocker-obsv/bpf/cpu.bpf.c:85-100 | the pid cache holds for each pid the cgroup of its last remembered event with no exit or eviction since |
| `BpfAccounting.RunCounters` | gocker-obsv/bpf/cpu.bpf.c:69-82 | each sampling counter is the number of events that reached it |
| `BpfAccounting.TotalsAreExact` | gocker-obsv/bpf/cpu.bpf.c:103-172 | each stored total, summed over CPUs, is the fold of exactly the accepted events attributed to its key |
| `BpfReference.TotalsAreDue` | gocker-obsv/bpf/cpu.bpf.c:103-172 | each stored total is what the probes are due: whom each charges, in which table, under which type, how much, and which the written rate keeps, read off the trace alone |
| `BpfReference.CacheHoldsHomes` | gocker-obsv/bpf/cpu.bpf.c:85-139 | the pid cache holds for each pid the cgroup in which a switch or runtime event inside the target last showed it, with no exit or eviction since |
| `BpfReference.ExitForgets` | gocker-obsv/bpf/sched.bpf.c:91-97 | right after its exit or eviction a pid is not cached |
| `BpfReference.EffectPays` | gocker-obsv/bpf/cpu.bpf.c:122-172 | each probe's effect charges the running cgroup, the home of its pid, or nobody, as the probe says |
| `BpfReference.BytesAreDoubled` | gocker-obsv/bpf/mem.bpf.c:143-150 | the bytes of an order are 4096, doubled for each order up to 31 |
| `BpfAccounting.ChargedOnlyAfterPassing` | gocker-obsv/bpf/sched.bpf.c:53-97 | any cgroup charged had, earlier or in the same event, passed the target filter under the configuration then in force |
| `BpfAccounting.RememberedPassed` | gocker-obsv/bpf/cpu.bpf.c:122-154 | a cached cgroup passed the filter at the event that cached it |
| `BpfAccounting.SegmentAccepts` | gocker-obsv/bpf/mem.bpf.c:96-111 | in a segment at rate r a CPU whose counter starts at pc accepts floor((pc+m)/r) - floor(pc/r) of m events |
| `BpfAccounting.SamplingErrorBound` | gocker-obsv/bpf/pf.bpf.c:50-64 | at a fixed rate r, accepted events scaled by r never exceed the events that reached the sampler and fall short by at most ncpu*(r-1) |
| `BpfAccounting.WrittenRateBound` | gocker-obsv/bpf/pf.bpf.c:36-54 | the same bound for the rate as written in the configuration |
| `BpfAccounting.RateOneAcceptsAll` | gocker-obsv/bpf/pf.bpf.c:36-54 | with zero or one written, every event that reaches the sampler is accepted |
| `BpfAccounting.ReachedIsSum` | gocker-obsv/bpf/pf.bpf.c:50-54 | every event that reaches a sampler reaches that of exactly one CPU |
| `BpfObjects.BpfObject.InTargetSubtreeCurrent` | gocker-obsv/bpf/cpu.bpf.c:58-66 | the filter: off, or the non-zero ancestor at the level is the target |
| `BpfObjects.BpfObject.PassSample` | gocker-obsv/bpf/mem.bpf.c:96-111 | the counter moves and an event passes when the written rate is zero or one or divides the count; the memory object's counter stands still at zero or one |
| `BpfObjects.BpfObject.RememberPid` | gocker-obsv/bpf/cpu.bpf.c:85-90 | caches only non-zero pids and cgroups |
| `BpfObjects.BpfObject.AddTo` | gocker-obsv/bpf/mem.bpf.c:113-131 | adds, refusing cgroup 0 and zero amounts in the objects that do |
| `BpfObjects.BpfObject.BumpPf` | gocker-obsv/bpf/pf.bpf.c:55-70 | filtered, sampled and counted under the running cgroup, as one step of the machine the totals are proved about |
| `BpfObjects.BpfObject.TpSchedSwitchCpu` | gocker-obsv/bpf/cpu.bpf.c:122-130 | one step: the switched-out task is remembered if inside the target |
| `BpfObjects.BpfObject.TpSchedExitCpu` | gocker-obsv/bpf/cpu.bpf.c:134-139 | one step: the pid leaves the cache, and nothing else changes |
| `BpfObjects.BpfObject.TpSchedStatRuntime` | gocker-obsv/bpf/cpu.bpf.c:143-159 | one step: charged to the running cgroup, else to the cached one |
| `BpfObjects.BpfObject.HandleDelayEvent` | gocker-obsv/bpf/cpu.bpf.c:162-186 | one step: wait and I/O wait are charged to the cached cgroup |
| `BpfObjects.BpfObject.BumpSched` | gocker-obsv/bpf/sched.bpf.c:53-60 | samples, then counts one |
| `BpfObjects.BpfObject.TpSchedSwitch` | gocker-obsv/bpf/sched.bpf.c:64-79 | one step: remembers the switched-out task, counts the switched-in one from the cache |
| `BpfObjects.BpfObject.TpSchedWakeup` | gocker-obsv/bpf/sched.bpf.c:82-88 | one step: the woken pid is counted from the cache, or not at all |
| `BpfObjects.BpfObject.TpSchedExit` | gocker-obsv/bpf/sched.bpf.c:92-97 | one step: the pid leaves the cache, and nothing else changes |
| `BpfObjects.BpfObject.TpKswapdWake` | gocker-obsv/bpf/mem.bpf.c:152-159 | one step: sampled, not filtered, counted system-wide |
| `BpfObjects.BpfObject.TpDirectReclaim` | gocker-obsv/bpf/mem.bpf.c:161-172 | one step: filtered, sampled, counted |
| `BpfObjects.BpfObject.TpReclaimPages` | gocker-obsv/bpf/mem.bpf.c:174-186 | one step: filtered, sampled, the reclaimed pages added |
| `BpfObjects.BpfObject.TpPageAllocFree` | gocker-obsv/bpf/mem.bpf.c:188-220 | one step: bytes of the clamped order, allocated or freed |
| `Syscalls.StartMapIsExact` | gocker-obsv/bpf/sys.bpf.c:43-83 | the start map holds exactly the calls in flight that passed the filter on entry and were not evicted, with their true start and cgroup |
| `Syscalls.ExitContributes` | gocker-obsv/bpf/sys.bpf.c:68-83 | what an exit adds is the duration of the call its own thread entered |
| `Syscalls.SyscallAccountingIsExact` | gocker-obsv/bpf/sys.bpf.c:43-83 | counts and latencies summed over CPUs are the number and total duration of the recorded completed calls, through migration, eviction and reconfiguration |
| `Syscalls.OnlyEvictionLosesCalls` | gocker-obsv/bpf/sys.bpf.c:43-83 | recorded calls are at most those that passed the filter on entry, and all of them without eviction |
| `Syscalls.OneCall` | gocker-obsv/bpf/sys.bpf.c:43-83 | one call entered inside the target and left is counted once, with its duration, and its start is gone |
| `Syscalls.SysObject.TpSysEnter` | gocker-obsv/bpf/sys.bpf.c:43-55 | one step of the machine the accounting is proved about: a filtered entry is stored with time and cgroup |
| `Syscalls.SysObject.TpSysExit` | gocker-obsv/bpf/sys.bpf.c:68-83 | one step of that machine: a stored entry is counted, timed and deleted, an unknown exit ignored |
| `Collector.Scanner.Scan` | gocker-obsv/cmd/collector/main.go:659-686 | the scan loop visits its rows one by one: disallowed keys lose their last total, allowed ones export growth |
| `Collector.Scanner.ScanArray` | gocker-obsv/cmd/collector/main.go:688-709 | the array counter exports growth and nothing when the total fell |
| `Collector.ScanNeverDecreases` | gocker-obsv/cmd/collector/main.go:670-681 | for any totals whatever, exported counters never decrease and are at least the last total |
| `Collector.ExportIsStretchTotal` | gocker-obsv/cmd/collector/main.go:659-686 | for any interleaving of increments, refreshes and scans, the exported counter is the sum over maximal allowed stretches of the total at the end of each |
| `Collector.ExportedOnceWhileAllowed` | gocker-obsv/cmd/collector/main.go:674-681 | while a cgroup stays allowed, right after a scan the exported counter is the per-CPU total |
| `Collector.ExportedOnceExactly` | gocker-obsv/cmd/collector/main.go:670-681 | right after a scan that finds a cgroup allowed the exported counter is at least the kernel total, and equal if and only if no earlier allowed stretch closed with a positive total |
| `Collector.ReturnedIsExportedAgain` | gocker-obsv/cmd/collector/main.go:670-681 | a concrete run in which a cgroup leaves, is scanned, returns, and has one total exported twice |
| `Collector.ScanIsRun` | gocker-obsv/cmd/collector/main.go:659-686 | the scan loop over its rows, with increments landing in between, is a stretch of the run the export is proved about |
| `Pipeline.SameTable` | gocker-obsv/cmd/collector/main.go:891-920 | the table the collector scans is the table the programs filled |
| `Pipeline.ExportedIsAccepted` | gocker-obsv/cmd/collector/main.go:889-920 | end to end, while allowed, the exported counter is the fold of exactly the accepted events attributed to that entry |
| `Pipeline.ExportedIsAcceptedByStretch` | gocker-obsv/cmd/collector/main.go:889-920 | in general, the exported counter is the sum over maximal allowed stretches of the fold of accepted events by the end of each |
| `SyscallPipeline.SameTable` | gocker-obsv/cmd/collector/main.go:897-902 | the tables of counts and latencies the collector scans are those the programs filled |
| `SyscallPipeline.ExportedIsRecordedByStretch` | gocker-obsv/cmd/collector/main.go:897-902 | end to end for calls and latencies: the exported counter is the sum over maximal allowed stretches of what the recorded calls amount to by the end of each |
| `MemoryFaults.FaultCollector.PruneState` | gocker-obsv/cmd/collector/main.go:482-503 | keeps the baselines of allowed cgroups and no others |
| `MemoryFaults.FaultCollector.RefreshAllowed` | gocker-obsv/cmd/collector/main.go:504-523 | replaces the list, falling back to the target alone, and prunes |
| `MemoryFaults.FaultCollector.UpdateOne` | gocker-obsv/cmd/collector/main.go:794-814 | adds the growth since the baseline and moves the baseline |
| `MemoryFaults.FaultCollector.UpdateMemory` | gocker-obsv/cmd/collector/main.go:778-816 | every allowed cgroup but the target with a reading is observed exactly once |
| `MemoryFaults.BaselineIsLastReading` | gocker-obsv/cmd/collector/main.go:799-814 | the baseline is the last reading unless the cgroup was dropped since |
| `MemoryFaults.ExportFollowsHistory` | gocker-obsv/cmd/collector/main.go:799-813 | exported major plus minor is the growth between readings no drop separates |
| `MemoryFaults.EachCounterFollows` | gocker-obsv/cmd/collector/main.go:794-813 | the exported major faults are the growth of `pgmajfault`, and the exported minor faults that of the faults that are not major, between readings no drop separates |
| `MemoryFaults.FaultExportNeverOverReports` | gocker-obsv/cmd/collector/main.go:778-816 | for any readings with failures, prunes and re-additions, exported faults are the growth of the fault count since first observed, plus what the counters fell, less what drops hid; when the counters never fall, at most the growth, and all of it if never dropped |
| `MemoryFaults.OverReportedExactlyByExcess` | gocker-obsv/cmd/collector/main.go:794-814 | over the same runs, measured against `pgfault` alone, the export is at most the growth if and only if the growth of the excess of major faults and the falls are together no more than drops hid |
| `MemoryFaults.MajorAboveAllOverReports` | gocker-obsv/cmd/collector/main.go:794-797 | a concrete run in which five faults are exported while `pgfault` stays zero |
| `MemoryFaults.FallingMinorOverReports` | gocker-obsv/cmd/collector/main.go:794-813 | a concrete run in which `pgfault` stands still, no reading has an excess, and five faults are exported |
| `MemoryFaults.DropHidesGrowth` | gocker-obsv/cmd/collector/main.go:482-503 | a run in which a cgroup is dropped between two readings and nothing of the growth between them is exported |
| `MemoryFaults.UpdateIsRun` | gocker-obsv/cmd/collector/main.go:778-816 | an update over its cgroups is a stretch of reading events of the run the export is proved about |
| `MemoryFaults.BaselinesAreAllowed` | gocker-obsv/cmd/collector/main.go:482-523 | saved baselines belong only to cgroups of the current allow-list |
| `CgroupTree.CgroupLevel` | gocker-obsv/cmd/collector/main.go:196-212 | the loop counts the non-empty segments of the relative path |
| `CgroupTree.LevelIsDepth` | gocker-obsv/cmd/collector/main.go:196-212 | the level computed from a cgroup's path is its depth |
| `CgroupTree.EmptySegmentsSkipped` | gocker-obsv/cmd/collector/main.go:204-210 | empty path segments do not count and every other one does |
| `CgroupTree.AncestorTestIsSubtree` | gocker-obsv/bpf/cpu.bpf.c:58-66 | with distinct non-zero ids, the ancestor-at-level test accepts exactly the cgroups of the target's subtree |
| `CgroupTree.AllowList.Add` | eBPF/main.c:111-117 | adding fails only when a new key meets a full map |
| `CgroupTree.AllowList.WalkCgroupTree` | eBPF/main.c:126-196 | succeeds exactly when nothing in the subtree fails and all of it fits, and then has added exactly the subtree's ids |
| `CgroupTree.AllowList.WalkEntries` | eBPF/main.c:150-193 | the directory loop, with the same statement for a list of entries |
| `CgroupTree.CleanIsReadable` | eBPF/main.c:126-196 | nothing makes a walk fail exactly when every directory of the subtree can be looked at, opened and read and has only entries that can be; plain files are no obstacle |
| `CgroupTree.IdsAreSubtree` | eBPF/main.c:126-196 | the ids a walk adds are those of the recursive definition of the subtree |
| `CgroupTree.CollectorCoversSubtree` | gocker-obsv/cmd/collector/main.go:214-241 | the collector's own list covers the subtree if and only if no child has children |
| `Filters.FastFiltersAgree` | eBPF/sched_monitor.bpf.c:47-52 | the monitor's lookup in the list of a walk and the ancestor test with the level from the path accept the same cgroups, those of the target's subtree |
| `Filters.LoadMonitor` | eBPF/main.c:237-257 | the monitor starts exactly when the walk of the target succeeds from an empty list, and then lets through exactly what the metrics programs do |
| `Filters.NestedIsNeverExported` | gocker-obsv/cmd/collector/main.go:214-241 | a cgroup two or more levels below the target passes the programs' filter and is never exported, in any run whose lists the collector can find |
| `Filters.LeafIsCountedNotExported` | gocker-obsv/cmd/collector/main.go:214-241 | a concrete tree and run in which a nested cgroup is counted and not exported |
| `Lifecycle.NoAddressLeaks` | internal/container/manager.go:411-433 | over every overlap and failure, an address in the table belongs to a run or start in progress or to a container whose last release failed; with neither, the table is empty |
| `Lifecycle.StuckOnlyByFailedRelease` | internal/runtime.go:60-73 | if every release succeeds, no address is stuck |
| `Lifecycle.RecordsStayConsistent` | internal/container/manager.go:462-496 | under stale copies, every stored record has one of three statuses and a process id exactly while running |
| `Lifecycle.IdentityNeverChanges` | internal/runtime.go:76-162 | id, name, image, command, mount point, creation time and requested address of a record never change after creation |
| `RecordHistory.RecordsAreAsRequested` | internal/runtime.go:76-87 | over every run, a stored record has the image, name, command, mount point and requested address that the request its container was made for asks for |
| `RecordHistory.StartLooksUpTheSame` | internal/container/manager.go:438 | for a container made for an image argument, its record's image parses to the argument's name and tag, so a start looks up what the run did |
| `RecordHistory.OnlyFirstWriteMakesRecords` | pkg/common.go:27-38 | no write but a container's first makes a record |
| `RecordHistory.CreatedExits` | internal/container/manager.go:153-168 | a created container exits as stopped, without a process, at the time of its exit, and nothing else changes |
| `Lifecycle.PlanIsGood` | internal/container/manager.go:316-502 | every step of every operation writes only consistent copies, and takes, keeps or gives up exactly the address it holds |
| `Lifecycle.CommitKeepsInv` | pkg/common.go:27-38 | a good step keeps table, records, copies and identities consistent together |
| `Lifecycle.AddressIsOwn` | internal/container/manager.go:411-435 | until somebody releases a container's address, an operation that took it goes by the address the table has for that container |
| `Lifecycle.UnreleasedAddressesDiffer` | internal/runtime.go:60-90 | operations on different containers whose addresses nobody released go by different addresses, over every overlap |
| `AddressOverlap.StoppedRunSharesAddress` | internal/container/manager.go:205-217 | a run in which a stop frees the address of a waiting run and another run goes by it too |
| `Lifecycle.UninterruptedIsAlone` | internal/runtime.go:26-168 | in any run of any number of operations, a stretch of one operation's steps does what those steps do by themselves and leaves the other operations where they are |
| `Runtime.Manager.RunContainer` | internal/runtime.go:26-168 | alone: when it succeeds; every field of the record it leaves, from the request; and, whatever fails, the table as it began (up to a failed release) and other records untouched |
| `Runtime.Manager.Start` | internal/container/manager.go:316-502 | alone: when it succeeds; the record it leaves, with the address it was given; and that address given back |
| `Runtime.StartLeaves` | internal/container/manager.go:411-499 | what a start leaves, by which address it asks for and how far it got |
| `Runtime.RestartKeepsAddress` | internal/container/manager.go:411-416 | a container that requested no address gets the one it held last again while that is free |
| `Runtime.Manager.CreateAndRun` | internal/container/manager.go:44-175 | when it succeeds, the record it leaves field by field, and the copy its waiter goes on with |
| `Runtime.Manager.ExitCreated` | internal/container/manager.go:153-168 | the record after the created container's exit |
| `Runtime.Manager.RunToEnd` | internal/container/manager.go:425-502 | succeeds exactly when configuration and cgroup do; every way out of it releases the address, and the record says how far it got |
| `Runtime.Manager.StopContainer` | internal/container/manager.go:177-221 | when it succeeds, and the exact record and table it leaves |
| `Runtime.Manager.AdjustResourceLimits` | internal/container/cgroup.go:95-145 | when it succeeds, and that only the limits change, -1 keeping the stored one |
| `Runtime.Manager.RemoveContainer` | internal/remove.go:76-122 | deletes exactly the record of a container that is not running |
| `RuntimeSteps.RunIsSteps` | internal/runtime.go:26-168 | wherever an operation may begin, the steps of a run that nothing interrupts leave exactly the records and table of the code |
| `RuntimeSteps.StartIsSteps` | internal/container/manager.go:316-502 | the same for a start |
| `RuntimeSteps.CreateIsSteps` | internal/container/manager.go:44-175 | the same for a create, whose waiter is left behind |
| `RuntimeSteps.StopIsSteps` | internal/container/manager.go:177-221 | the same for a stop |
| `RuntimeSteps.AdjustIsSteps` | internal/container/cgroup.go:95-145 | the same for an adjustment |
| `RuntimeSteps.RemoveIsSteps` | internal/remove.go:76-122 | the same for a removal |
| `Strings.SplitJoin` | pkg/common.go:16 | splitting undoes joining when no piece contains the separator |
| `Images.ParseOfFormat` | pkg/common.go:15-24 | for every image argument, parsing the formatted pair returns the pair |
| `Images.ParseMeans` | pkg/common.go:15-24 | without a colon the tag is latest, around one colon stand name and tag, with more there is neither |
| `Images.ArgumentIsItsOwnKey` | pkg/common.go:15-24 | an argument is its own manifest key if and only if it has one colon |
| `Images.ImageManager.UpdateManifest` | internal/image/manager.go:93-133 | the loop changes the first matching entry in place or appends |
| `Images.ImageManager.ListImages` | internal/image/manager.go:176-199 | lists the tags in order, exactly those a lookup finds |
| `Images.FindUpdated` | internal/image/manager.go:110-124 | an update is visible under its own tag and under no other |
| `Images.UpdatedAt` | internal/image/manager.go:110-124 | an update changes the first entry with the tag where it stands, or appends one |
| `Images.ManifestRefinesMap` | internal/image/manager.go:93-133 | over any pulls the list has unique tags and answers as the map from tag to last pulled image |
| `Images.RunAndStartAgree` | internal/container/rootfs.go:201-208 | a run and every later start look up the same key, whatever is pulled in between; each gets the image pulled last under it, the same one unless that key was pulled again |
| `Images.PulledIsFound` | internal/image/manager.go:84-133 | pulling and then running an argument finds the pulled image exactly for arguments with one colon; otherwise the pull does not affect the lookup |
| `Images.UntaggedIsNotFound` | pkg/common.go:15-24 | an argument without a colon, pulled into an empty manifest, is not found by a run of it |
| `Images.PortWithoutTagIsFound` | pkg/common.go:15-24 | an argument with a port and no tag is found |

## Left out

- Mutual exclusion between processes: the allocator's lock covers one process, so `IpamConcurrent` speaks of the threads of one process and `Lifecycle` takes each allocator call as one step.
- A process killed between taking and releasing an address: `Lifecycle` has failures that return, not kills of the runtime itself.
- Running implying a live process or a held address: not promised by the code (a start can fail after storing Running, a stop does not wait).
- The overlap of lifecycle operations is modelled as steps on values in `Lifecycle`; `Runtime` has the operations in the imperative form, each alone, with a create and its waiter as two methods. In-place aliasing of the record between a create and its waiter is captured as one copy passed on.
- JSON encoding, dotted-decimal printing and parsing of addresses, and `filepath.Rel` are taken to be faithful; addresses are compared in their printed form, and a relative path is the joined names.
- A record write and the manifest write are one step each, although neither replaces its file atomically.
- Wrap-around of 64-bit counters, float rounding of exported counters, and the transient insert failures a kernel hash map may report beside "exists" and "full".
- `max_runtime_ns`, the ring-buffer events themselves and the printed dump: no code adds to the first, the others only report.
- A configuration write between the two times one program run reads it: a program run is one step.
- Metric labels: an exported counter is named by its map key, although unknown types share a label.
- Field defaults of the configuration endpoint: the configuration is the last one written.
- cgroup directories, veth pairs, mounts, pty, tar and registry calls, and PSI files: outside calls, or the same differencing as memory faults.
- Packet latency, the page-fault prototype, the syscall label table, dashboards and scripts.
