# go-netflow: a verified model

go-netflow captures TCP packets and attributes their bytes to processes. This Dafny
project models the attribution core and proves what it keeps over every run:

- the capture pipeline and its delay queue (`netflow.go`), as a state machine whose steps
  may interleave in any order;
- the per-process traffic ring and its window queries (`process.go`);
- the process index, `Rescan` and the top-k ranking (`process.go`);
- the expiring connection table (`types.go`);
- the `/proc/net/tcp` line reader and the connection keys (`netstat.go`);
- the array queue (`ringqueue.go`).

`dafny verify dfyconfig.toml` checks the whole project.

## Files

| file | contents |
|---|---|
| `TrafficWindow.dfy` | the ring as a function of its credits; exactness and rate bounds of window queries |
| `ProcessIndex.dfy` | the inode index built from a scan, for every map iteration order |
| `Processes.dfy` | the classes `Process` and `ProcessController`: credit, analyse, rescan, sort, rank |
| `ConnectionMap.dfy` | conditional adds, last writer wins, expiry; the class `Mapping` |
| `Text.dfy`, `Netstat.dfy` | number and field parsing, `getConnectionItem`, `spliceAddr`, injectivity of keys |
| `RingQueue.dfy` | `ringQueue` as a value and as a class, its FIFO region and what happens outside it |
| `Pipeline.dfy` | the state machine: devices, forwarders, workers, syncer, cleaner |
| `PipelineLedger.dfy` | conservation of packets; nothing counted twice; queue bounds |
| `PipelineCredits.dfy` | bytes of credited packets, rings in every run |
| `PipelineDelay.dfy` | order of retries, what a drain leaves behind, why it ends |
| `PipelineTables.dfy` | age of connection entries; attribution in spite of expiry |
| `PipelineWitness.dfy` | families of runs showing that Cleanups and a clock that stands still do matter |
| `PipelineAttribution.dfy` | whatever is credited was listed and scanned |
| `PipelineWorkers.dfy` | what becomes of one packet and of one retry, whatever happens in between |
| `PipelineQueues.dfy` | order and room in the queues; nobody is stuck or stops early; what rescans and Cleanups do |
| `Netflow.dfy` | the class `Netflow`: the operations on mutable objects, run one at a time |

## How the pipeline is modelled

`Pipeline.Apply` performs one atomic step: a channel operation, one lock-protected method
of the connection table or of the process controller, one ring update with its reading of
the clock, or the reading of the clock for a delayed entry or for `lastTime`.
`getProcessByAddr` is therefore two steps, stamping a delayed entry and pushing it are two
steps, and rescanning, cleaning and crediting can fall between them. A send to
`packetQueue` and the counter increment behind it are one step. `Run` is a sequence of
enabled steps and `Reachable` quantifies over all of them. The clock is an input that never
goes back. The `Log` and `Round` parts of the state, the `packet` of a job and the `worker`
of a delayed entry are bookkeeping that no step reads to decide anything; `Log` numbers
arrivals, so every packet has an identity.

Facts of the code the model keeps as they are:

- both channels hold `defaultQueueSize` entries whatever `WithQueueSize` says, because they
  are made before the options run (`netflow.go:255-263`);
- `lastTime` is read after the rescan has finished, and an entry stamped at that very time
  is still handled (`netflow.go:385-401`);
- a retry that fails is discarded (`netflow.go:793-801`);
- the window `[now-sec, now]` spans sec+1 seconds and is divided by sec
  (`process.go:42-64`);
- `shrink` runs before the same-second merge, so a full ring alternates between 60 and 61
  seconds (`process.go:83-89`);
- `Rescan` refreshes the inodes of a surviving process but not its inode count
  (`process.go:466`);
- `GetRank` builds copies and returns the live objects (`process.go:321-326`).

Where the code and its own words disagree, the model follows the code:

- `GetProcessRank` says windows must be at most 60, its guard admits 61
  (`netflow.go:280-283`), and only windows of at most 59 seconds are exact
  (`TrafficWindow.ExactIffWithinBound`); `core2/blocking.go:94` asks for 60;
- the cleaning comments speak of 10 minutes, the code uses 2 (`netflow.go:267-272`);
- `TestProcessShrink` expects a ring of 10 (`process_test.go:49-56`), the code keeps 61;
- the array queue is meant as a bounded FIFO. A new one of power-of-two capacity answers
  as one, whatever the elements and drained afterwards, exactly when every accepted `Add` that another accepted `Add` follows leaves the tail where it belongs
  (`RingQueues.AnswersAsFifoIff`); at any other capacity, which `newRingQueue` admits, that
  is not enough (`RingQueues.FifoCapacities`, and `RingQueues.ThreeSlots` for an input).

## Model

| member | source | states |
|---|---|---|
| TrafficWindow.RingIsNewest | process.go:66-124 | after any credits the ring is the newest part of the histogram of all of them: never more than 61 seconds, at least 60 once any was shed |
| TrafficWindow.HistogramMeaning | process.go:72-124 | under a monotone clock the histogram has exactly one entry per credited second, in increasing order, holding that second's input and output totals |
| TrafficWindow.WindowExact | process.go:42-64 | a window of at most 59 seconds on the ring sums exactly all credits ever made in it, although older seconds were shed |
| TrafficWindow.WindowLessShed | process.go:42-96 | a window of any length on the ring sums all credits ever made in it less what was shed of the seconds in it |
| TrafficWindow.AnalysedReports | process.go:42-64 | sec = 0 keeps the old figures; for any other sec each figure is, for every history that leads to the ring, its total less what was shed in the window: exact if nothing there was shed, never above it if no credit is negative; rates are the figures divided by sec, truncated |
| TrafficWindow.ExactIffWithinBound | process.go:42-124 | windows of sec seconds are exact for every history if and only if sec <= 59 |
| TrafficWindow.UnderReport | process.go:66-96 | 61 busy seconds and one more byte make every window of 60 or more seconds report one byte too few |
| TrafficWindow.UnderReportedStats | process.go:42-96 | of those 62 bytes analyseStats reports 61 for every window of 60 or more seconds |
| TrafficWindow.RateBound | process.go:42-64 | if no second carries more than r bytes of a side, its reported rate is at most r + r/sec and is the sum over the ring's window rounded down; at most sec+1 entries are in the window |
| Processes.Process.Shrink | process.go:66-70 | drops the oldest second of a full ring and nothing else |
| Processes.Process.IncreaseInput | process.go:72-96 | the ring becomes the credited ring of the specification for an input credit |
| Processes.Process.IncreaseOutput | process.go:99-124 | the ring becomes the credited ring of the specification for an output credit |
| Processes.Process.AnalyseStats | process.go:42-64 | the figures are those of `AnalysedReports`; for 0 != sec <= 59 the totals of every history that leads to the ring; sec = 0 keeps the old figures |
| Processes.SortByTotal | process.go:541-549 | the result is a descending permutation by In+Out |
| Processes.PrefixIsTopK | process.go:312-327 | a prefix of a descending listing of all processes has min(limit, n) distinct ones and none left out has a larger In+Out than one returned |
| Processes.TopKByTraffic | process.go:312-343 | such an answer is in the order of, and leaves out nobody ahead in, what the rings hold of the window; for windows of at most 59 seconds, what the processes were ever credited in it |
| Processes.ProcessController.GetProcessByInode | process.go:359-369 | the process the index and the dictionary name, or nil exactly when one of them does not know it |
| Processes.ProcessController.Rescan | process.go:451-493 | for every iteration order: exactly the scanned pids, under the scanned inodes; survivors keep object, ring and inode count, new ones start with no traffic; an inode finds a process exactly when some scanned process lists it, and one that does |
| Processes.ProcessController.AddNew | process.go:462-471 | scanned pids are added, survivors keep their object and take the scanned inodes, new rings are empty |
| Processes.ProcessController.DeleteOld | process.go:473-481 | exactly the pids that were not scanned are gone |
| Processes.ProcessController.Reindex | process.go:483-490 | the index is the one the specification builds in the order visited |
| Processes.ProcessController.AnalyseAll | process.go:333-337 | each process is analysed once and listed once |
| Processes.ProcessController.Sort | process.go:329-343 | every process is analysed, and the result lists each exactly once in descending order |
| Processes.ProcessController.GetRank | process.go:312-327 | the leading entries of the last sort, as live objects |
| Processes.ProcessController.GetProcessRank | netflow.go:280-288 | refused exactly above 61; otherwise a top-k by In+Out, for sec != 0 by the traffic of the window as in `TopKByTraffic`, with the figures of `AnalysedReports`, exact totals for at most 59 seconds; sec = 0 ranks by the old figures |
| ProcessIndex.IndexAgreesWithScan | process.go:483-490 | for every iteration order an inode is indexed exactly when some scanned process lists it, and under a process that does, even when several do |
| ConnectionMap.ConditionalRefinesBlind | netflow.go:442-456 | after any list of conditional adds to any table every lookup answers as after unconditional adds |
| ConnectionMap.ConditionalNeverNewer | netflow.go:442-456 | no recorded time is newer than with unconditional adds |
| ConnectionMap.LastWriterWins | netflow.go:442-456 | a listed key holds the inode of the last connection touching it, every other key keeps its entry |
| ConnectionMap.KeptExactly | types.go:99-109 | an entry survives Cleanup unchanged exactly when it is not older than the expiration |
| ConnectionMap.Mapping.Add | types.go:88-96 | the key holds the value under the current time |
| ConnectionMap.Mapping.Contains | types.go:110-115 | true exactly when the key holds the value |
| ConnectionMap.Mapping.Get | types.go:117-125 | the value, or the empty string for a missing key |
| ConnectionMap.Mapping.Delete | types.go:126-131 | the key is gone and nothing else |
| ConnectionMap.Mapping.Cleanup | types.go:98-109 | deleting expired entries one by one in any order leaves exactly the unexpired ones |
| Text.RemoveEmpty | netstat.go:159-169 | the fields that are not empty, in order |
| Text.PaddingIsIrrelevant | netstat.go:195-197 | however a line of fields is padded with blanks, its columns are the fields |
| Text.ParseIntHex | netstat.go:217-227 | a number printed in hexadecimal reads back, or is a range error exactly when it needs the sign bit |
| Text.ParseIntSigned | netstat.go:217-235 | a sign is read; the negative range reaches one further than the positive |
| Netstat.HexToIPOfPrinted | netstat.go:118-132 | an address printed as a little-endian host word reads back as its dotted form |
| Netstat.ParseAddrOfPrinted | netstat.go:134-146 | a printed address and port read back as dotted address and decimal port |
| Netstat.MalformedAddr | netstat.go:134-146 | an address that is not eight digits, a colon and a port comes back as it is |
| Netstat.ParsingUndoesPrinting | netstat.go:195-261 | for every row and padding the reader recovers both addresses, ports, queue sizes, uid, inode and both keys; it skips exactly other states, a zero peer, and queue sizes beyond 31 bits |
| Netstat.UnreadLines | netstat.go:195-227 | only lines of at least ten columns, in one of the two states and of another peer than 0.0.0.0 yield a connection; other states and that peer are skipped, fewer than four columns are an index out of range |
| Netstat.PrintAddrDigits | netstat.go:118-146 | an address and its port as they stand in a line, digit by digit |
| Netstat.KeyExample | netflow.go:938-940 | the form of a key |
| Netstat.PacketFindsListedRow | netstat.go:241-243 | once a printed row is read and listed, the key of a packet in either direction looks up its inode |
| Netstat.SpliceAddrInjective | netflow.go:938-940 | two 4-tuples with the same key are equal |
| Netstat.TextTableIsTupleTable | types.go:88-131 | over every sequence of adds, conditional adds, Cleanups and deletions the table keyed by text holds exactly what a table keyed by 4-tuples holds, and lookups agree |
| RingQueues.ReachableInBounds | ringqueue.go:28-73 | at any capacity all indices are in bounds in every reachable state |
| RingQueues.AddAlignedIff | ringqueue.go:28-46 | Add leaves the tail at (head+count) mod n exactly when it fills the queue with head 0, or neither fills it nor is the tail on the last slot |
| RingQueues.RemoveAlignedIff | ringqueue.go:58-73 | at any capacity Remove leaves the tail there exactly when the mask moves the head to the next slot or there is nothing to remove; when it does, a misplaced tail stays misplaced |
| RingQueues.MaskAdvancesIff | ringqueue.go:69-69 | the mask moves every head to the next slot if and only if the capacity is a power of two |
| RingQueues.AppendsIffAligned | ringqueue.go:28-46 | Add to a queue with room appends, whatever the element, if and only if the tail is at (head+count) mod n |
| RingQueues.FrontIsOldest | ringqueue.go:48-66 | at any capacity Peek and Remove yield the oldest queued element |
| RingQueues.RemoveDropsFrontIff | ringqueue.go:58-73 | at any capacity Remove drops the oldest element, whatever the buffer holds, if and only if the mask moves the head to the next slot or the queue becomes empty |
| RingQueues.BitAndMask | ringqueue.go:69-69 | the bitwise and with a power of two less one is the remainder |
| RingQueues.AppendsIffInRegion | ringqueue.go:28-73 | at a power-of-two capacity every accepted Add of a run appends, whatever its element, if and only if every accepted Add that another accepted Add follows is in the region of AddAlignedIff |
| RingQueues.AnswersAsFifoIff | ringqueue.go:18-73 | at a power-of-two capacity the calls of a run, with any elements and followed by draining the queue, get the answers of a bounded FIFO if and only if that holds of the run |
| RingQueues.FifoCapacities | ringqueue.go:18-73 | every run of a new queue for which that holds has the answers and contents of a bounded FIFO if and only if the capacity is a power of two |
| RingQueues.ThreeSlots | ringqueue.go:58-73 | with three slots, Add, Add, Remove, Remove returns nil in place of the second element |
| RingQueues.OverwritesQueued | ringqueue.go:28-46 | for every power-of-two capacity of at least 2 some run overwrites an element the FIFO still holds |
| RingQueues.RingQueue.Add | ringqueue.go:28-46 | the fields change as the specification says; refused exactly when full |
| RingQueues.RingQueue.Peek | ringqueue.go:48-56 | the element at the head, or nil |
| RingQueues.RingQueue.Remove | ringqueue.go:58-73 | the fields change as the specification says and the head element is returned |
| RingQueues.RingQueue.Length | ringqueue.go:24-26 | the count |
| PipelineLedger.CaptureStep | netflow.go:497-516 | no step of any goroutine creates, loses or duplicates a captured packet before it is accepted or dropped |
| PipelineLedger.ConservedStep | netflow.go:546-576 | no step creates, loses or duplicates an accepted packet, for any additive measure |
| PipelineLedger.Conservation | netflow.go:771-847 | over every run an accepted packet is queued, in a worker's hands, delayed, held, ignored, credited, lost to overflow or discarded, and these add up |
| PipelineLedger.ReachableWithinBounds | netflow.go:546-554 | queues never exceed their capacity and the counter is the number of accepted packets |
| PipelineLedger.AcceptedOnce | netflow.go:546-554 | a packet is accepted at most once |
| PipelineLedger.CreditedOnceAndNowhereElse | netflow.go:821-847 | a credited packet is credited once and is in no queue, hand or loss |
| PipelineCredits.JobsStayFaithful | netflow.go:578-624 | wherever a job is, delayed or credited, it has its own packet's key and 4*IHL + 4*DataOffset + payload bytes, and is output exactly when the packet's source is one of the host's addresses |
| PipelineCredits.BytesConserved | netflow.go:596-609 | accepted TCP bytes equal bytes credited, queued, in hands, delayed, held, lost to overflow and discarded |
| PipelineCredits.CreditsAreInRings | process.go:474-481 | credited bytes equal the rings of indexed processes, the rings of removed ones, and what shrink shed |
| PipelineCredits.RingTracksHistory | process.go:72-124 | in every run each ring is the ring of the credits its process received, in clock order |
| PipelineCredits.WindowExactInEveryRun | process.go:42-64 | in every run a window of at most 59 seconds reports exactly what the process was credited in it |
| PipelineCredits.WindowsSumPackets | netflow.go:594-624 | in every reachable state the output a window of at most 59 seconds sums up is 4*IHL + 4*DataOffset + payload of every packet credited to the process in it whose source is one of the host's addresses, the input that of every other |
| PipelineWorkers.WorkerLookUp | netflow.go:803-819 | whatever others do meanwhile, a worker's lookup misses exactly when the connection table has no inode for the packet's key at its first step, or the index no live process for it at its second |
| PipelineWorkers.WorkerCredits | netflow.go:821-847 | if it does not miss, its next step credits the packet's job to that very process, at the second the clock shows, and delays nothing |
| PipelineWorkers.MissIsDelayed | netflow.go:771-843 | if it misses, nothing is credited; the job is stamped with the time and queued for retry exactly when there is room |
| PipelineWorkers.RetryOutcome | netflow.go:793-819 | a retry credits the entry to the process both tables name at its two steps, and discards it exactly when one of them names none |
| PipelineQueues.PacketsInOrder | netflow.go:546-576 | over every run packets leave the capture buffers and packetQueue in the order they came |
| PipelineQueues.ArrivalNeedsRoom | netflow.go:495-516 | a capture buffer takes a packet exactly while it holds fewer than 10,000,000 |
| PipelineQueues.EnqueueNeedsRoom | netflow.go:546-554 | packetQueue takes and counts a packet exactly while it holds fewer than 2,000,000 |
| PipelineQueues.DropsOnlyWhenFull | netflow.go:546-554 | no step of anybody drops a packet or an entry for which there is room |
| PipelineQueues.NobodyIsStuck | netflow.go:370-408 | in every reachable state each worker, forwarder and the syncer can go on or has nothing to do |
| PipelineQueues.NobodyStopsEarly | netflow.go:556-576 | no worker exits and the syncer does not stop before cancellation |
| PipelineQueues.RescanListsAll | netflow.go:442-456 | a rescan goes through both keys of every connection it read, in order, and through nothing else |
| PipelineQueues.CleanupRemovesExpired | netflow.go:267-272 | a Cleanup removes exactly the entries more than 120 seconds old |
| PipelineQueues.OnlyRescansAreRemembered | netflow.go:442-456 | what the soundness of attribution and the staleness bound remember of listings and scans grows only by what was listed and scanned |
| PipelineDelay.RetryDiscipline | netflow.go:386-405 | entries are consumed in the order they were queued and handled only in a drain whose lastTime is not before their stamp |
| PipelineDelay.HeldGoesFirst | netflow.go:389-401 | an entry popped too early stays held and nothing else is popped or retried before it |
| PipelineDelay.NeverRequeued | netflow.go:793-801 | no packet is queued for retry twice, so none is retried twice |
| PipelineDelay.OneWorkerInOrder | netflow.go:831-842 | with one worker the delay queue is always in timestamp order |
| PipelineDelay.DrainLeavesFew | netflow.go:389-405 | when a drain ends uncancelled at most w entries stamped by lastTime remain in the queue or in hands, w-1 when it ends on a late entry |
| PipelineDelay.DrainRetriesAllWaiting | netflow.go:384-405 | a drain that ends uncancelled has retried every entry that was held or queued when it began, so none waits for more than one such drain |
| PipelineDelay.PendingStep | netflow.go:780-791 | during a drain no step raises the count of pending early entries plus handled ones, but for a stamp taken no later than lastTime, which raises it by one |
| PipelineDelay.DrainHandlesAtMostPending | netflow.go:386-405 | one drain handles at most what was pending when it began plus the entries stamped since no later than lastTime, whatever workers push; of the latter there are none once the clock has moved on |
| PipelineTables.StalenessBound | netflow.go:267-272 | with Cleanups at most P apart no entry is older than two minutes and P, and a key not listed for longer is gone |
| PipelineTables.RescannedMatches | process.go:460-490 | after a scan the objects indexed are exactly the scanned ones under the scanned inodes, survivors unchanged, new ones without traffic |
| PipelineTables.LookUpFindsUnlessLost | netflow.go:803-808 | the lookup of a held entry of an unambiguously listed key finds the inode if and only if no Cleanup has found the key expired since its listing |
| PipelineTables.CleanupTransparent | netflow.go:370-408 | unless a Cleanup has found the key expired since its listing, a drain credits every entry of an unambiguously listed connection with a scanned inode to a process owning the inode |
| PipelineWitness.CleanupTimingMatters | netflow.go:446-451 | for every connection there is a run with one Cleanup after its listing whose drain discards such an entry |
| PipelineWitness.DrainUnboundedOnStillClock | netflow.go:386-405 | if the clock stands still the entries stamped since are without bound: for every n some drain begins with nothing pending and handles n |
| PipelineAttribution.AttributionSound | netflow.go:803-819 | over every run a credit goes only to a process that some scan found holding an inode some rescan listed under the packet's key |
| Netflows.RescanConns | netflow.go:442-456 | each key a line touches, as getConnectionItem reads it, holds the inode of the last such line, every other key keeps its entry; lookups answer as after blind adds; it stops only where a line has too few columns |
| Netflows.TouchedKeyIsThere | netflow.go:442-456 | so both keys of every connection read are in the table |
| Netflows.PrintedRowIsFound | netflow.go:442-456 | so both keys of a printed row look up its inode unless a later line touches the key |
| Netflows.OwnerIff | netflow.go:803-819 | a key has an owner exactly when the table holds an inode for it that is not empty, the index a pid for the inode and the dictionary a process for the pid: that process |
| Netflows.ResolveAfterRescan | netflow.go:803-819 | after a rescan the owner of a listed key with a scanned inode is a scanned process listing it |
| Netflows.Netflow.Enqueue | netflow.go:546-554 | the packet is appended and counted, or dropped, exactly when the queue holds 2,000,000 |
| Netflows.Netflow.PushDelayQueue | netflow.go:771-778 | the entry is appended, or dropped, exactly when the queue holds 2,000,000 |
| Netflows.Netflow.ConsumeDelayQueue | netflow.go:780-791 | the oldest entry, or nothing exactly when the cancelled context is seen or the queue is empty |
| Netflows.Netflow.GetProcessByAddr | netflow.go:803-819 | the process the three maps name for the key, or nil exactly when one of them does not |
| Netflows.Netflow.IncreaseProcessTraffic | netflow.go:821-829 | the ring takes a credit on the given side |
| Netflows.Netflow.IncreaseTraffic | netflow.go:831-847 | the process the three maps name is credited; exactly when there is none the job is delayed under the time read after the lookup |
| Netflows.Netflow.HandleDelayEntry | netflow.go:793-801 | the process the three maps name is credited; exactly when there is none the entry is discarded |
| Netflows.Netflow.Drain | netflow.go:386-405 | undisturbed, a drain retries exactly the held entry and the queue up to the first late entry, in order, holds that one and leaves the rest; it stops earlier only where it sees the context cancelled |
| Netflows.RetriesCreditOwned | netflow.go:793-819 | what a drain makes of a ring is that of its history with the credits behind it of exactly the handled entries the process owns, each once and in order |

## Left out

- Data races: `Ring` has no lock; each ring update is taken as one atomic step, and Go's memory model is not described.
- PipelineCredits.WindowExactInEveryRun: like `PipelineCredits.RingTracksHistory` it takes the reading of the clock and the ring update of one credit (`process.go:72-124`) as one step; if a worker and the syncer credit one process with those apart, seconds can enter its ring out of order, which is not modelled.
- Machine integers: byte counts and rates are unbounded, 64-bit wrap-around is not modelled; the ring's timestamps are whole seconds of the clock input.
- Packet capture and decoding (libpcap, gopacket, BPF filters, device discovery): a decoded packet is a record with its IPv4 and TCP fields, or none; nil packets do not occur.
- The exit of the capture loops at cancellation: the model lets packets arrive after it; workers and syncer do stop.
- File system reads (`/proc`, `/etc/passwd`): scans and lines are inputs, and the user name of a connection is not part of the record.
- Processes.ProcessController.Rescan: takes the pids and inodes a scan found and builds the objects of new processes itself; name, exe and state are not part of a process here.
- Processes.ProcessController.GetRank: takes a non-negative limit, since a negative one panics in the original; the unused copies it builds are not modelled.
- Netflows.Netflow: runs its operations one at a time; interleavings are in `Pipeline`, whose processes are numbered values instead of objects.
- Text: strings are sequences of characters, byte encodings are not modelled; `fmt.Sprintf` and `net.IP.String` are modelled for IPv4 only.
- Options, loggers, pcap files, cgroups, Stop and finalize, the RPC client, configuration, table rendering, and dead code (`handlePacket1`, `GetProcesses1`, `findPid`): no property beyond their own lines.
