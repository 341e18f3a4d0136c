/** The capture pipeline and delay-queue protocol of netflow.go as a state machine.

    Every channel operation, every lock-protected method of the connection table and
    the process controller, every ring update and every reading of the clock is one
    atomic step; any goroutine may take the next step.  The goroutines are: one
    capture loop and one forwarder per device, the workers, the resource syncer and
    the cleaner.  The `Log` part of the state is bookkeeping: no step reads it but to extend it. */
module Pipeline {
  import opened Options
  import opened TrafficWindow
  import opened ConnectionMap
  import opened ProcessIndex
  import opened Netstat

  /** Both queues are made before any option runs, so this is always their size. */
  const QUEUE_SIZE: nat := 2_000_000
  const BUFFER_SIZE: nat := 10_000_000

  /** Times are in nanoseconds. */
  const SECOND: int := 1_000_000_000
  const EXPIRATION: int := 120 * SECOND

  // ----------------------------------------------------------------- packets

  /** The IPv4 and TCP layers of a packet. */
  datatype Segment = Segment(ends: Endpoints, ihl: nat, dataOffset: nat, payload: nat)

  /** A captured packet; `tcp` is None unless it has both layers. */
  datatype Packet = Packet(id: nat, tcp: Option<Segment>)

  /** Header and payload bytes: IHL and Data Offset count 32-bit words. */
  function Length(g: Segment): nat {
    g.ihl * 4 + g.dataOffset * 4 + g.payload
  }

  /** What handlePacket passes to increaseTraffic; `packet` is bookkeeping. */
  datatype Job = Job(packet: Packet, addr: string, bytes: nat, side: Side)

  function JobOf(packet: Packet, g: Segment, bindIPs: set<string>): Job {
    Job(packet, SpliceAddr(g.ends), Length(g), if Dotted(g.ends.ip) in bindIPs then Output else Input)
  }

  /** A delayed job; `worker` is bookkeeping. */
  datatype DelayEntry = DelayEntry(stamp: int, job: Job, worker: nat)

  // -------------------------------------------------------------- goroutines

  datatype Device = Device(buffer: seq<Packet>, forwarding: Option<Packet>)

  /** How far getProcessByAddr has come. */
  datatype Probe = ByAddr | ByInode(inode: string) | Found(obj: nat) | Missing

  datatype Worker =
    | Idle
    | Exited
    | Holding(packet: Packet)
    | Probing(job: Job, probe: Probe)
    | Stamped(entry: DelayEntry)

  /** A key and inode that a listed connection asks for. */
  datatype Wanted = Wanted(key: string, inode: string)

  datatype Phase =
    | Starting
    | Waiting
    | Rescanning(first: bool, todo: seq<Wanted>, mustAdd: bool, scanned: bool)
    | Draining(lastTime: int)
    | Handling(lastTime: int, probe: Probe)
    | Stopped

  // ------------------------------------------------------------------- state

  datatype Proc = Proc(pid: string, inodes: seq<string>, ring: seq<TrafficEntry>)

  /** The shared tables.  Process objects are numbered and never reused; `dict`
      says which are indexed. */
  datatype Tables = Tables(conns: map<string, Entry>, dict: map<string, nat>, index: map<string, string>,
                           procs: seq<Proc>)

  datatype Flow = Flow(devices: seq<Device>, packetQueue: seq<Packet>, workers: seq<Worker>,
                       delayQueue: seq<DelayEntry>, phase: Phase, held: Option<DelayEntry>)

  /** A job credited to a process object, at a second of the clock. */
  datatype CreditRecord = CreditRecord(job: Job, obj: nat, at: int)

  /** A delayed entry the syncer is done with: credited to an object, or discarded. */
  datatype Retry = Retry(entry: DelayEntry, lastTime: int, outcome: Option<nat>)

  datatype Log = Log(
    arrived: seq<Packet>, bufferDrops: seq<Packet>, queueDrops: seq<Packet>, accepted: seq<Packet>,
    ignored: seq<Packet>, overflow: seq<DelayEntry>,
    credits: seq<CreditRecord>, shed: int,
    pushed: seq<DelayEntry>, popped: seq<DelayEntry>, retries: seq<Retry>,
    lastCleanup: int, lastListed: map<string, int>,
    everListed: set<Wanted>, everScanned: set<(string, string)>)

  /** The latest rescan: what it listed, what it scanned and in which order, and the
      keys that Cleanups removed since it began and that it has not added since. */
  datatype Round = Round(listed: seq<Wanted>, scan: Option<Scan>, order: seq<string>, lost: set<string>)

  datatype State = State(clock: int, cancelled: bool, bindIPs: set<string>, counter: nat,
                         flow: Flow, tables: Tables, round: Round, log: Log)

  function Init(clock: int, bindIPs: set<string>, devices: nat, workers: nat): State {
    State(clock, false, bindIPs, 0,
          Flow(seq(devices, _ => Device([], None)), [], seq(workers, _ => Idle), [], Starting, None),
          Tables(map[], map[], map[], []),
          Round([], None, [], {}),
          Log([], [], [], [], [], [], [], 0, [], [], [], clock, map[], {}, {}))
  }

  // ----------------------------------------------------------------- actions

  datatype Action =
    | Tick(dt: nat)                          // the clock advances
    | Arrive(dev: nat, tcp: Option<Segment>) // capture loop: into the buffer, or dropped
    | Forward(dev: nat)                      // forwarder: out of the buffer
    | Enqueue(dev: nat)                      // forwarder: into packetQueue, or dropped
    | Dequeue(w: nat)                        // worker: out of packetQueue
    | Exit(w: nat)                           // worker: sees the cancelled context
    | Work(w: nat)                           // worker: next step of handlePacket
    | BeginRescan(conns: seq<ConnectionItem>)
    | ListStep                               // one Exists or one Add of rescanConns
    | ScanProcesses(scan: Scan, addOrder: seq<string>, indexOrder: seq<string>)
    | ScanFails
    | EndRescan                              // lastTime is read here
    | Consume                                // consumeDelayQueue
    | ConsumeCancelled                       // consumeDelayQueue sees the cancelled context
    | Consider                               // the timestamp test
    | HandleStep                             // next step of handleDelayEntry
    | Cleanup
    | Cancel
    | StopSyncer

  ghost predicate Enabled(s: State, a: Action) {
    var f := s.flow;
    match a
    case Tick(_) => true
    case Arrive(d, _) => d < |f.devices|
    case Forward(d) => d < |f.devices| && f.devices[d].forwarding.None? && f.devices[d].buffer != []
    case Enqueue(d) => d < |f.devices| && f.devices[d].forwarding.Some?
    case Dequeue(w) => w < |f.workers| && f.workers[w].Idle? && f.packetQueue != []
    case Exit(w) => w < |f.workers| && f.workers[w].Idle? && s.cancelled
    case Work(w) => w < |f.workers| && !f.workers[w].Idle? && !f.workers[w].Exited?
    case BeginRescan(_) => f.phase.Starting? || f.phase.Waiting?
    case ListStep => f.phase.Rescanning? && f.phase.todo != []
    case ScanProcesses(scan, addOrder, indexOrder) =>
      f.phase.Rescanning? && !f.phase.scanned && IsOrder(addOrder, scan.Keys) && IsOrder(indexOrder, scan.Keys)
    case ScanFails => f.phase.Rescanning? && !f.phase.scanned
    case EndRescan => f.phase.Rescanning? && f.phase.todo == [] && f.phase.scanned
    case Consume => f.phase.Draining? && f.held.None?
    case ConsumeCancelled => f.phase.Draining? && f.held.None? && s.cancelled
    case Consider => f.phase.Draining? && f.held.Some?
    case HandleStep => f.phase.Handling? && f.held.Some?
    case Cleanup => true
    case Cancel => true
    case StopSyncer => f.phase.Waiting? && s.cancelled
  }

  // ------------------------------------------------------------------- steps

  /** One step of getProcessByAddr: first the connection table, then the index. */
  function Probed(t: Tables, addr: string, probe: Probe): Probe {
    match probe
    case ByAddr => if Value(t.conns, addr) == "" then Missing else ByInode(Value(t.conns, addr))
    case ByInode(inode) =>
      if inode in t.index && t.index[inode] in t.dict then Found(t.dict[t.index[inode]]) else Missing
    case Found(_) => probe
    case Missing => probe
  }

  function CreditOf(r: CreditRecord): Credit {
    Credit(r.at, r.job.side, r.job.bytes)
  }

  /** Credits a job to a process object. */
  function Crediting(s: State, job: Job, obj: nat): State {
    if obj < |s.tables.procs| then
      var p := s.tables.procs[obj];
      var r := CreditRecord(job, obj, s.clock / SECOND);
      s.(tables := s.tables.(procs := s.tables.procs[obj := p.(ring := CreditRing(p.ring, CreditOf(r)))]),
         log := s.log.(credits := s.log.credits + [r], shed := s.log.shed + RingBytes(Dropped(p.ring))))
    else s
  }

  function RingBytes(ring: seq<TrafficEntry>): int {
    if ring == [] then 0 else RingBytes(ring[..|ring| - 1]) + ring[|ring| - 1].bytesIn + ring[|ring| - 1].bytesOut
  }

  function SetWorker(f: Flow, w: nat, x: Worker): Flow
    requires w < |f.workers|
  {
    f.(workers := f.workers[w := x])
  }

  /** handlePacket on a packet just taken: the layers, then the key, length and side. */
  function InspectStep(s: State, w: nat, p: Packet): State
    requires w < |s.flow.workers|
  {
    if p.tcp.None? then s.(flow := SetWorker(s.flow, w, Idle), log := s.log.(ignored := s.log.ignored + [p]))
    else s.(flow := SetWorker(s.flow, w, Probing(JobOf(p, p.tcp.value, s.bindIPs), ByAddr)))
  }

  function LookUpStep(s: State, w: nat, job: Job, probe: Probe): State
    requires w < |s.flow.workers|
  {
    s.(flow := SetWorker(s.flow, w, Probing(job, Probed(s.tables, job.addr, probe))))
  }

  function CreditStep(s: State, w: nat, job: Job, obj: nat): State
    requires w < |s.flow.workers|
  {
    Crediting(s.(flow := SetWorker(s.flow, w, Idle)), job, obj)
  }

  function StampStep(s: State, w: nat, job: Job): State
    requires w < |s.flow.workers|
  {
    s.(flow := SetWorker(s.flow, w, Stamped(DelayEntry(s.clock, job, w))))
  }

  /** pushDelayQueue: never blocks, drops when the queue is full. */
  function PushStep(s: State, w: nat, e: DelayEntry): State
    requires w < |s.flow.workers|
  {
    if |s.flow.delayQueue| < QUEUE_SIZE
    then s.(flow := SetWorker(s.flow, w, Idle).(delayQueue := s.flow.delayQueue + [e]),
            log := s.log.(pushed := s.log.pushed + [e]))
    else s.(flow := SetWorker(s.flow, w, Idle), log := s.log.(overflow := s.log.overflow + [e]))
  }

  function WorkStep(s: State, w: nat): State
    requires w < |s.flow.workers|
  {
    match s.flow.workers[w]
    case Idle => s
    case Exited => s
    case Holding(p) => InspectStep(s, w, p)
    case Probing(job, probe) =>
      (match probe
       case ByAddr => LookUpStep(s, w, job, probe)
       case ByInode(_) => LookUpStep(s, w, job, probe)
       case Found(obj) => CreditStep(s, w, job, obj)
       case Missing => StampStep(s, w, job))
    case Stamped(e) => PushStep(s, w, e)
  }

  /** Both keys of every listed connection, in listing order. */
  function WantedBy(conns: seq<ConnectionItem>): seq<Wanted> {
    if conns == [] then []
    else
      var c := conns[|conns| - 1];
      WantedBy(conns[..|conns| - 1]) + [Wanted(c.addr, c.inode), Wanted(c.reverseAddr, c.inode)]
  }

  /** rescanConns on the head of the list: Exists decides, then Add. */
  function ListingStep(s: State): State
    requires s.flow.phase.Rescanning? && s.flow.phase.todo != []
  {
    var ph := s.flow.phase;
    var x := ph.todo[0];
    var seen := s.log.(lastListed := s.log.lastListed[x.key := s.clock]);
    if ph.mustAdd then
      s.(flow := s.flow.(phase := ph.(todo := ph.todo[1..], mustAdd := false)),
         tables := s.tables.(conns := Added(s.tables.conns, Touch(x.key, x.inode, s.clock))),
         round := s.round.(lost := s.round.lost - {x.key}), log := seen)
    else if Exists(s.tables.conns, x.key, x.inode) then
      s.(flow := s.flow.(phase := ph.(todo := ph.todo[1..])), log := seen)
    else
      s.(flow := s.flow.(phase := ph.(mustAdd := true)), log := seen)
  }

  /** A known pid takes the scanned inodes; a new pid gets a new object. */
  function AddOne(t: Tables, pid: string, inodes: seq<string>): Tables {
    if pid in t.dict && t.dict[pid] < |t.procs|
    then t.(procs := t.procs[t.dict[pid] := t.procs[t.dict[pid]].(inodes := inodes)])
    else t.(procs := t.procs + [Proc(pid, inodes, [])], dict := t.dict[pid := |t.procs|])
  }

  /** The first loop of Rescan. */
  function AddScanned(t: Tables, scan: Scan, order: seq<string>): Tables
    requires forall i :: 0 <= i < |order| ==> order[i] in scan
  {
    if order == [] then t
    else
      var pid := order[|order| - 1];
      AddOne(AddScanned(t, scan, order[..|order| - 1]), pid, scan[pid])
  }

  function Rescanned(t: Tables, scan: Scan, addOrder: seq<string>, indexOrder: seq<string>): Tables
    requires forall i :: 0 <= i < |addOrder| ==> addOrder[i] in scan
    requires forall i :: 0 <= i < |indexOrder| ==> indexOrder[i] in scan
  {
    var u := AddScanned(t, scan, addOrder);
    t.(procs := u.procs, dict := map pid | pid in u.dict && pid in scan :: u.dict[pid],
       index := BuildIndex(scan, indexOrder))
  }

  /** One step of handleDelayEntry on the held entry. */
  function RetryStep(s: State): State
    requires s.flow.phase.Handling? && s.flow.held.Some?
  {
    match s.flow.phase.probe
    case ByAddr => RetryLookUp(s)
    case ByInode(_) => RetryLookUp(s)
    case Found(obj) => Crediting(RetryEnd(s, Some(obj)), s.flow.held.value.job, obj)
    case Missing => RetryEnd(s, None)
  }

  function RetryLookUp(s: State): State
    requires s.flow.phase.Handling? && s.flow.held.Some?
  {
    var ph := s.flow.phase;
    s.(flow := s.flow.(phase := Handling(ph.lastTime, Probed(s.tables, s.flow.held.value.job.addr, ph.probe))))
  }

  function RetryEnd(s: State, outcome: Option<nat>): State
    requires s.flow.phase.Handling? && s.flow.held.Some?
  {
    var t := s.flow.phase.lastTime;
    s.(flow := s.flow.(phase := Draining(t), held := None),
       log := s.log.(retries := s.log.retries + [Retry(s.flow.held.value, t, outcome)]))
  }

  function ArriveStep(s: State, d: nat, tcp: Option<Segment>): State
    requires d < |s.flow.devices|
  {
    var ds := s.flow.devices;
    var p := Packet(|s.log.arrived|, tcp);
    var l := s.log.(arrived := s.log.arrived + [p]);
    if |ds[d].buffer| < BUFFER_SIZE
    then s.(flow := s.flow.(devices := ds[d := ds[d].(buffer := ds[d].buffer + [p])]), log := l)
    else s.(log := l.(bufferDrops := s.log.bufferDrops + [p]))
  }

  function ForwardStep(s: State, d: nat): State
    requires d < |s.flow.devices| && s.flow.devices[d].buffer != []
  {
    var b := s.flow.devices[d].buffer;
    s.(flow := s.flow.(devices := s.flow.devices[d := Device(b[1..], Some(b[0]))]))
  }

  /** enqueue: never blocks, drops when the queue is full, counts what it accepts. */
  function EnqueueStep(s: State, d: nat): State
    requires d < |s.flow.devices| && s.flow.devices[d].forwarding.Some?
  {
    var ds := s.flow.devices;
    var p := ds[d].forwarding.value;
    var g := s.flow.(devices := ds[d := ds[d].(forwarding := None)]);
    if |s.flow.packetQueue| < QUEUE_SIZE
    then s.(flow := g.(packetQueue := s.flow.packetQueue + [p]), counter := s.counter + 1,
            log := s.log.(accepted := s.log.accepted + [p]))
    else s.(flow := g, log := s.log.(queueDrops := s.log.queueDrops + [p]))
  }

  function DequeueStep(s: State, w: nat): State
    requires w < |s.flow.workers| && s.flow.packetQueue != []
  {
    s.(flow := SetWorker(s.flow, w, Holding(s.flow.packetQueue[0])).(packetQueue := s.flow.packetQueue[1..]))
  }

  function BeginStep(s: State, conns: seq<ConnectionItem>): State {
    s.(flow := s.flow.(phase := Rescanning(s.flow.phase.Starting?, WantedBy(conns), false, false)),
       round := Round(WantedBy(conns), None, [], {}),
       log := s.log.(everListed := s.log.everListed + set x | x in WantedBy(conns)))
  }

  function ScanStep(s: State, scan: Scan, addOrder: seq<string>, indexOrder: seq<string>): State
    requires s.flow.phase.Rescanning? && IsOrder(addOrder, scan.Keys) && IsOrder(indexOrder, scan.Keys)
  {
    s.(flow := s.flow.(phase := s.flow.phase.(scanned := true)),
       tables := Rescanned(s.tables, scan, addOrder, indexOrder),
       round := s.round.(scan := Some(scan), order := indexOrder),
       log := s.log.(everScanned := s.log.everScanned + ScannedPairs(scan)))
  }

  function ScannedPairs(scan: Scan): set<(string, string)> {
    set pid, inode | pid in scan && inode in scan[pid] :: (pid, inode)
  }

  function SetPhase(s: State, phase: Phase): State {
    s.(flow := s.flow.(phase := phase))
  }

  /** consumeDelayQueue: an empty queue ends the drain. */
  function ConsumeStep(s: State): State {
    var q := s.flow.delayQueue;
    if q == [] then SetPhase(s, Waiting)
    else s.(flow := s.flow.(delayQueue := q[1..], held := Some(q[0])), log := s.log.(popped := s.log.popped + [q[0]]))
  }

  /** Only an entry stamped no later than lastTime is handled. */
  function ConsiderStep(s: State): State
    requires s.flow.phase.Draining? && s.flow.held.Some?
  {
    if s.flow.held.value.stamp > s.flow.phase.lastTime then SetPhase(s, Waiting)
    else SetPhase(s, Handling(s.flow.phase.lastTime, ByAddr))
  }

  function CleanupStep(s: State): State {
    var kept := Kept(s.tables.conns, s.clock, EXPIRATION);
    s.(tables := s.tables.(conns := kept),
       round := s.round.(lost := s.round.lost + (s.tables.conns.Keys - kept.Keys)),
       log := s.log.(lastCleanup := s.clock))
  }

  function Apply(s: State, a: Action): State
    requires Enabled(s, a)
  {
    match a
    case Tick(dt) => s.(clock := s.clock + dt)
    case Arrive(d, tcp) => ArriveStep(s, d, tcp)
    case Forward(d) => ForwardStep(s, d)
    case Enqueue(d) => EnqueueStep(s, d)
    case Dequeue(w) => DequeueStep(s, w)
    case Exit(w) => s.(flow := SetWorker(s.flow, w, Exited))
    case Work(w) => WorkStep(s, w)
    case BeginRescan(conns) => BeginStep(s, conns)
    case ListStep => ListingStep(s)
    case ScanProcesses(scan, addOrder, indexOrder) => ScanStep(s, scan, addOrder, indexOrder)
    case ScanFails => SetPhase(s, s.flow.phase.(scanned := true))
    case EndRescan => SetPhase(s, if s.flow.phase.first then Waiting else Draining(s.clock))
    case Consume => ConsumeStep(s)
    case ConsumeCancelled => SetPhase(s, Waiting)
    case Consider => ConsiderStep(s)
    case HandleStep => RetryStep(s)
    case Cleanup => CleanupStep(s)
    case Cancel => s.(cancelled := true)
    case StopSyncer => SetPhase(s, Stopped)
  }

  // -------------------------------------------------------------------- runs

  ghost predicate Run(s: State, actions: seq<Action>, r: State)
    decreases |actions|
  {
    if actions == [] then s == r
    else Enabled(s, actions[0]) && Run(Apply(s, actions[0]), actions[1..], r)
  }

  ghost predicate IsInit(s: State) {
    exists clock: int, bindIPs: set<string>, devices: nat, workers: nat :: s == Init(clock, bindIPs, devices, workers)
  }

  /** Some interleaving leads to the state. */
  ghost predicate Reachable(s: State) {
    exists s0: State, actions: seq<Action> :: IsInit(s0) && Run(s0, actions, s)
  }

  lemma {:induction false} RunSnoc(s: State, actions: seq<Action>, r: State, a: Action)
    requires Run(s, actions, r) && Enabled(r, a)
    ensures Run(s, actions + [a], Apply(r, a))
    decreases |actions|
  {
    if actions == [] {
      assert [a][1..] == [];
    } else {
      RunSnoc(Apply(s, actions[0]), actions[1..], r, a);
      assert (actions + [a])[1..] == actions[1..] + [a];
    }
  }
}
