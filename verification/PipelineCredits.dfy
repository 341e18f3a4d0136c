/** From packets to rings: the bytes a packet brings in are the bytes credited, and
    every ring is the sliding window of the credits its process received. */
module PipelineCredits {
  import opened Options
  import opened TrafficWindow
  import opened ProcessIndex
  import opened Netstat
  import opened Pipeline
  import opened PipelineLedger

  // ------------------------------------------------------------ faithful jobs

  /** The bytes a packet counts for: both headers, in 32-bit words, and the payload. */
  function PacketBytes(p: Packet): int {
    if p.tcp.None? then 0 else 4 * p.tcp.value.ihl + 4 * p.tcp.value.dataOffset + p.tcp.value.payload
  }

  /** A job carries its own packet's key and length, and is output exactly when one of
      the host's own addresses sent the packet. */
  predicate Faithful(job: Job, bindIPs: set<string>) {
    job.packet.tcp.Some? &&
    var g := job.packet.tcp.value;
    && job.addr == SpliceAddr(g.ends)
    && job.bytes == 4 * g.ihl + 4 * g.dataOffset + g.payload
    && (job.side == Output <==> Dotted(g.ends.ip) in bindIPs)
  }

  predicate WorkerJob(w: Worker, ok: Job -> bool) {
    match w
    case Idle => true
    case Exited => true
    case Holding(_) => true
    case Probing(job, _) => ok(job)
    case Stamped(e) => ok(e.job)
  }

  /** Every job anywhere in the pipeline satisfies `ok`. */
  ghost predicate AllJobs(s: State, ok: Job -> bool) {
    && (forall i :: 0 <= i < |s.flow.workers| ==> WorkerJob(s.flow.workers[i], ok))
    && (forall i :: 0 <= i < |s.flow.delayQueue| ==> ok(s.flow.delayQueue[i].job))
    && (s.flow.held.Some? ==> ok(s.flow.held.value.job))
    && (forall i :: 0 <= i < |s.log.credits| ==> ok(s.log.credits[i].job))
  }

  /** Whatever holds of every job handlePacket makes. */
  ghost predicate HoldsWhenMade(ok: Job -> bool, bindIPs: set<string>) {
    forall p: Packet, g: Segment :: p.tcp == Some(g) ==> ok(JobOf(p, g, bindIPs))
  }

  lemma StepJobs(s: State, a: Action, ok: Job -> bool)
    requires Enabled(s, a) && AllJobs(s, ok) && HoldsWhenMade(ok, s.bindIPs)
    ensures AllJobs(Apply(s, a), ok) && Apply(s, a).bindIPs == s.bindIPs
  {
    if a.Work? {
      WorkJobs(s, a.w, ok);
    } else if a.HandleStep? {
      RetryJobs(s, ok);
    } else if a.Consume? {
      ConsumeJobs(s, ok);
    } else {
      OtherJobs(s, a, ok);
    }
  }

  lemma OtherJobs(s: State, a: Action, ok: Job -> bool)
    requires Enabled(s, a) && AllJobs(s, ok) && !a.Work? && !a.HandleStep? && !a.Consume?
    ensures AllJobs(Apply(s, a), ok) && Apply(s, a).bindIPs == s.bindIPs
  {
  }

  lemma WorkJobs(s: State, w: nat, ok: Job -> bool)
    requires w < |s.flow.workers| && AllJobs(s, ok) && HoldsWhenMade(ok, s.bindIPs)
    ensures AllJobs(WorkStep(s, w), ok) && WorkStep(s, w).bindIPs == s.bindIPs
  {
    var x := s.flow.workers[w];
    assert WorkerJob(x, ok);
    if x.Holding? {
      InspectJobs(s, w, x.packet, ok);
    } else if x.Probing? {
      ProbingJobs(s, w, x.job, x.probe, ok);
    } else if x.Stamped? {
      PushJobs(s, w, x.entry, ok);
    }
  }

  lemma InspectJobs(s: State, w: nat, p: Packet, ok: Job -> bool)
    requires w < |s.flow.workers| && AllJobs(s, ok) && HoldsWhenMade(ok, s.bindIPs)
    ensures AllJobs(InspectStep(s, w, p), ok) && InspectStep(s, w, p).bindIPs == s.bindIPs
  {
  }

  lemma ProbingJobs(s: State, w: nat, job: Job, probe: Probe, ok: Job -> bool)
    requires w < |s.flow.workers| && s.flow.workers[w] == Probing(job, probe) && AllJobs(s, ok) && ok(job)
    ensures AllJobs(WorkStep(s, w), ok) && WorkStep(s, w).bindIPs == s.bindIPs
  {
  }

  lemma PushJobs(s: State, w: nat, e: DelayEntry, ok: Job -> bool)
    requires w < |s.flow.workers| && AllJobs(s, ok) && ok(e.job)
    ensures AllJobs(PushStep(s, w, e), ok)
  {
  }

  lemma RetryJobs(s: State, ok: Job -> bool)
    requires s.flow.phase.Handling? && s.flow.held.Some? && AllJobs(s, ok)
    ensures AllJobs(RetryStep(s), ok) && RetryStep(s).bindIPs == s.bindIPs
  {
  }

  lemma ConsumeJobs(s: State, ok: Job -> bool)
    requires AllJobs(s, ok)
    ensures AllJobs(ConsumeStep(s), ok) && ConsumeStep(s).bindIPs == s.bindIPs
  {
  }

  lemma {:induction false} RunJobs(s: State, actions: seq<Action>, r: State, ok: Job -> bool)
    requires Run(s, actions, r) && AllJobs(s, ok) && HoldsWhenMade(ok, s.bindIPs)
    ensures AllJobs(r, ok) && r.bindIPs == s.bindIPs
    decreases |actions|
  {
    if actions != [] {
      StepJobs(s, actions[0], ok);
      RunJobs(Apply(s, actions[0]), actions[1..], r, ok);
    }
  }

  /** Anything that holds of every job when made holds of every job there is. */
  lemma ReachableJobs(s: State, ok: Job -> bool)
    requires Reachable(s) && HoldsWhenMade(ok, s.bindIPs)
    ensures AllJobs(s, ok)
  {
    var s0, actions :| IsInit(s0) && Run(s0, actions, s);
    RunJobs(s0, actions, s, _ => true);
    RunJobs(s0, actions, s, ok);
  }

  /** No job is altered on its way: wherever it is, delayed or credited, it still
      has its own packet's key, length and side. */
  lemma JobsStayFaithful(s: State)
    requires Reachable(s)
    ensures AllJobs(s, job => Faithful(job, s.bindIPs))
  {
    var bindIPs := s.bindIPs;
    ReachableJobs(s, job => Faithful(job, bindIPs));
  }

  // ------------------------------------------------------------ credited bytes

  function CreditedBytes(credits: seq<CreditRecord>, n: nat): int
    requires n <= |credits|
  {
    if n == 0 then 0 else CreditedBytes(credits, n - 1) + credits[n - 1].job.bytes
  }

  lemma {:induction false} CreditedAgree(a: seq<CreditRecord>, b: seq<CreditRecord>, n: nat)
    requires n <= |a| && n <= |b| && forall i :: 0 <= i < n ==> a[i] == b[i]
    ensures CreditedBytes(a, n) == CreditedBytes(b, n)
  {
    if n > 0 {
      CreditedAgree(a, b, n - 1);
    }
  }

  predicate Weighed(job: Job) {
    job.bytes == PacketBytes(job.packet)
  }

  lemma {:induction false} CreditedIsWeighed(credits: seq<CreditRecord>, n: nat)
    requires n <= |credits| && forall i :: 0 <= i < |credits| ==> Weighed(credits[i].job)
    ensures CreditedBytes(credits, n) == TotalTo(credits, n, OfCredit, PacketBytes)
  {
    if n > 0 {
      CreditedIsWeighed(credits, n - 1);
    }
  }

  /** Over every interleaving, the TCP bytes accepted are the bytes credited plus
      those queued, in workers' hands, delayed, held, or lost to delay overflow and
      failed retries. */
  lemma BytesConserved(s: State)
    requires Reachable(s)
    ensures Total(s.log.accepted, Itself, PacketBytes) ==
              CreditedBytes(s.log.credits, |s.log.credits|)
              + Total(s.flow.packetQueue, Itself, PacketBytes) + Total(s.flow.workers, OfWorker, PacketBytes)
              + Total(s.flow.delayQueue, OfEntry, PacketBytes) + Weight(OfHeld(s.flow.held), PacketBytes)
              + Total(s.log.overflow, OfEntry, PacketBytes) + Total(s.log.retries, OfFailure, PacketBytes)
  {
    Conservation(s, PacketBytes);
    ReachableJobs(s, Weighed);
    CreditedIsWeighed(s.log.credits, |s.log.credits|);
    ReachableIgnored(s);
    IgnoredWeighNothing(s.log.ignored, |s.log.ignored|);
  }

  /** Ignored packets lack a layer. */
  predicate IgnoredLackLayer(ignored: seq<Packet>) {
    forall i :: 0 <= i < |ignored| ==> ignored[i].tcp.None?
  }

  lemma {:induction false} IgnoredWeighNothing(ignored: seq<Packet>, n: nat)
    requires n <= |ignored| && IgnoredLackLayer(ignored)
    ensures TotalTo(ignored, n, Itself, PacketBytes) == 0
  {
    if n > 0 {
      IgnoredWeighNothing(ignored, n - 1);
    }
  }

  lemma StepIgnored(s: State, a: Action)
    requires Enabled(s, a) && IgnoredLackLayer(s.log.ignored)
    ensures IgnoredLackLayer(Apply(s, a).log.ignored)
  {
  }

  lemma {:induction false} RunIgnored(s: State, actions: seq<Action>, r: State)
    requires Run(s, actions, r) && IgnoredLackLayer(s.log.ignored)
    ensures IgnoredLackLayer(r.log.ignored)
    decreases |actions|
  {
    if actions != [] {
      StepIgnored(s, actions[0]);
      RunIgnored(Apply(s, actions[0]), actions[1..], r);
    }
  }

  lemma ReachableIgnored(s: State)
    requires Reachable(s)
    ensures IgnoredLackLayer(s.log.ignored)
  {
    var s0, actions :| IsInit(s0) && Run(s0, actions, s);
    RunIgnored(s0, actions, s);
  }

  // ------------------------------------------------------ rings hold the bytes

  function ProcBytes(procs: seq<Proc>, n: nat): int
    requires n <= |procs|
  {
    if n == 0 then 0 else ProcBytes(procs, n - 1) + RingBytes(procs[n - 1].ring)
  }

  lemma {:induction false} ProcBytesAgree(a: seq<Proc>, b: seq<Proc>, n: nat)
    requires n <= |a| && n <= |b| && forall i :: 0 <= i < n ==> a[i].ring == b[i].ring
    ensures ProcBytes(a, n) == ProcBytes(b, n)
  {
    if n > 0 {
      ProcBytesAgree(a, b, n - 1);
    }
  }

  lemma {:induction false} ProcBytesSet(procs: seq<Proc>, obj: nat, p: Proc, n: nat)
    requires obj < n <= |procs|
    ensures ProcBytes(procs[obj := p], n) == ProcBytes(procs, n) - RingBytes(procs[obj].ring) + RingBytes(p.ring)
  {
    if obj < n - 1 {
      ProcBytesSet(procs, obj, p, n - 1);
    } else {
      ProcBytesAgree(procs[obj := p], procs, n - 1);
    }
  }

  /** Rings of processes still indexed. */
  ghost function LiveBytes(procs: seq<Proc>, live: set<nat>, n: nat): int
    requires n <= |procs|
  {
    if n == 0 then 0
    else LiveBytes(procs, live, n - 1) + if n - 1 in live then RingBytes(procs[n - 1].ring) else 0
  }

  /** Rings of processes a rescan removed. */
  ghost function RemovedBytes(procs: seq<Proc>, live: set<nat>, n: nat): int
    requires n <= |procs|
  {
    if n == 0 then 0
    else RemovedBytes(procs, live, n - 1) + if n - 1 in live then 0 else RingBytes(procs[n - 1].ring)
  }

  lemma {:induction false} LiveAndRemoved(procs: seq<Proc>, live: set<nat>, n: nat)
    requires n <= |procs|
    ensures ProcBytes(procs, n) == LiveBytes(procs, live, n) + RemovedBytes(procs, live, n)
  {
    if n > 0 {
      LiveAndRemoved(procs, live, n - 1);
    }
  }

  lemma RingBytesSnoc(ring: seq<TrafficEntry>, e: TrafficEntry)
    ensures RingBytes(ring + [e]) == RingBytes(ring) + e.bytesIn + e.bytesOut
  {
  }

  lemma {:induction false} RingBytesAppend(a: seq<TrafficEntry>, b: seq<TrafficEntry>)
    ensures RingBytes(a + b) == RingBytes(a) + RingBytes(b)
  {
    if b == [] {
      assert a + b == a;
    } else {
      RingBytesAppend(a, b[..|b| - 1]);
      assert a + b == (a + b[..|b| - 1]) + [b[|b| - 1]];
      RingBytesSnoc(a + b[..|b| - 1], b[|b| - 1]);
    }
  }

  lemma MergedBytes(ring: seq<TrafficEntry>, c: Credit)
    ensures RingBytes(Merged(ring, c)) == RingBytes(ring) + c.bytes
  {
  }

  /** A credit's bytes enter the ring; only what shrink sheds leaves it. */
  lemma CreditedRingBytes(ring: seq<TrafficEntry>, c: Credit)
    ensures RingBytes(CreditRing(ring, c)) + RingBytes(Dropped(ring)) == RingBytes(ring) + c.bytes
  {
    assert ring == Dropped(ring) + Shrunk(ring);
    RingBytesAppend(Dropped(ring), Shrunk(ring));
    MergedBytes(Shrunk(ring), c);
  }

  ghost predicate RingsBalance(credits: seq<CreditRecord>, procs: seq<Proc>, shed: int) {
    CreditedBytes(credits, |credits|) == ProcBytes(procs, |procs|) + shed
  }

  lemma CreditingBalances(s: State, job: Job, obj: nat)
    requires obj < |s.tables.procs| && RingsBalance(s.log.credits, s.tables.procs, s.log.shed)
    ensures var r := Crediting(s, job, obj); RingsBalance(r.log.credits, r.tables.procs, r.log.shed)
  {
    var p, c := s.tables.procs[obj], CreditRecord(job, obj, s.clock / SECOND);
    CreditedRingBytes(p.ring, CreditOf(c));
    ProcBytesSet(s.tables.procs, obj, p.(ring := CreditRing(p.ring, CreditOf(c))), |s.tables.procs|);
    CreditedAgree(s.log.credits + [c], s.log.credits, |s.log.credits|);
  }

  /** A rescan changes no ring; new objects start with an empty one. */
  ghost predicate RingsKept(t: Tables, u: Tables) {
    && |t.procs| <= |u.procs|
    && (forall i :: 0 <= i < |t.procs| ==> u.procs[i].ring == t.procs[i].ring)
    && (forall i :: |t.procs| <= i < |u.procs| ==> u.procs[i].ring == [])
  }

  lemma {:induction false} AddScannedKeepsRings(t: Tables, scan: Scan, order: seq<string>)
    requires forall i :: 0 <= i < |order| ==> order[i] in scan
    ensures RingsKept(t, AddScanned(t, scan, order))
  {
    if order != [] {
      AddScannedKeepsRings(t, scan, order[..|order| - 1]);
    }
  }

  lemma {:induction false} NewRingsEmpty(procs: seq<Proc>, m: nat, n: nat)
    requires m <= n <= |procs| && forall i :: m <= i < n ==> procs[i].ring == []
    ensures ProcBytes(procs, n) == ProcBytes(procs, m)
    decreases n - m
  {
    if m < n {
      NewRingsEmpty(procs, m, n - 1);
    }
  }

  lemma ScanBalances(s: State, scan: Scan, addOrder: seq<string>, indexOrder: seq<string>)
    requires s.flow.phase.Rescanning? && IsOrder(addOrder, scan.Keys) && IsOrder(indexOrder, scan.Keys)
    requires RingsBalance(s.log.credits, s.tables.procs, s.log.shed)
    ensures var r := ScanStep(s, scan, addOrder, indexOrder); RingsBalance(r.log.credits, r.tables.procs, r.log.shed)
  {
    AddScannedKeepsRings(s.tables, scan, addOrder);
    var u := AddScanned(s.tables, scan, addOrder);
    NewRingsEmpty(u.procs, |s.tables.procs|, |u.procs|);
    ProcBytesAgree(u.procs, s.tables.procs, |s.tables.procs|);
  }

  /** A step leaves rings alone, credits one object, or scans. */
  datatype RingChange = Untouched | Credits(before: State, job: Job, obj: nat) | Scans

  function RingChangeOf(s: State, a: Action): RingChange
    requires Enabled(s, a)
  {
    if a.ScanProcesses? then Scans
    else if a.Work? && s.flow.workers[a.w].Probing? && s.flow.workers[a.w].probe.Found? then
      Credits(s.(flow := SetWorker(s.flow, a.w, Idle)), s.flow.workers[a.w].job, s.flow.workers[a.w].probe.obj)
    else if a.HandleStep? && s.flow.phase.probe.Found? then
      Credits(RetryEnd(s, Some(s.flow.phase.probe.obj)), s.flow.held.value.job, s.flow.phase.probe.obj)
    else Untouched
  }

  lemma RingChanges(s: State, a: Action)
    requires Enabled(s, a)
    ensures var r := Apply(s, a);
            match RingChangeOf(s, a)
            case Untouched =>
              r.log.credits == s.log.credits && r.tables.procs == s.tables.procs && r.log.shed == s.log.shed
            case Credits(before, job, obj) =>
              && r == Crediting(before, job, obj)
              && before.clock == s.clock && before.log.credits == s.log.credits
              && before.tables == s.tables && before.log.shed == s.log.shed
            case Scans => true
  {
  }

  lemma StepBalances(s: State, a: Action)
    requires Enabled(s, a) && InRange(s) && RingsBalance(s.log.credits, s.tables.procs, s.log.shed)
    ensures var r := Apply(s, a); RingsBalance(r.log.credits, r.tables.procs, r.log.shed)
  {
    RingChanges(s, a);
    match RingChangeOf(s, a)
    case Untouched =>
    case Credits(before, job, obj) =>
      FoundInRange(s, a);
      CreditingBalances(before, job, obj);
    case Scans =>
      ScanBalances(s, a.scan, a.addOrder, a.indexOrder);
  }

  lemma FoundInRange(s: State, a: Action)
    requires Enabled(s, a) && InRange(s) && RingChangeOf(s, a).Credits?
    ensures RingChangeOf(s, a).obj < |s.tables.procs|
  {
  }

  lemma {:induction false} RunBalances(s: State, actions: seq<Action>, r: State)
    requires Run(s, actions, r) && InRange(s) && RingsBalance(s.log.credits, s.tables.procs, s.log.shed)
    ensures RingsBalance(r.log.credits, r.tables.procs, r.log.shed)
    decreases |actions|
  {
    if actions != [] {
      StepInRange(s, actions[0]);
      StepBalances(s, actions[0]);
      RunBalances(Apply(s, actions[0]), actions[1..], r);
    }
  }

  /** Over every interleaving, the bytes credited are in the rings of indexed
      processes, in the rings of processes a rescan removed, or were shed. */
  lemma CreditsAreInRings(s: State)
    requires Reachable(s)
    ensures var live := s.tables.dict.Values;
            CreditedBytes(s.log.credits, |s.log.credits|) ==
              LiveBytes(s.tables.procs, live, |s.tables.procs|)
              + RemovedBytes(s.tables.procs, live, |s.tables.procs|) + s.log.shed
  {
    var s0, actions :| IsInit(s0) && Run(s0, actions, s);
    RunBalances(s0, actions, s);
    LiveAndRemoved(s.tables.procs, s.tables.dict.Values, |s.tables.procs|);
  }

  // ------------------------------------------- every ring is a sliding window

  /** The credits an object received, in order. */
  ghost function HistoryOf(credits: seq<CreditRecord>, obj: nat, n: nat): seq<Credit>
    requires n <= |credits|
  {
    if n == 0 then []
    else HistoryOf(credits, obj, n - 1) + if credits[n - 1].obj == obj then [CreditOf(credits[n - 1])] else []
  }

  ghost function History(s: State, obj: nat): seq<Credit> {
    HistoryOf(s.log.credits, obj, |s.log.credits|)
  }

  lemma {:induction false} HistoryAgree(a: seq<CreditRecord>, b: seq<CreditRecord>, obj: nat, n: nat)
    requires n <= |a| && n <= |b| && forall i :: 0 <= i < n ==> a[i] == b[i]
    ensures HistoryOf(a, obj, n) == HistoryOf(b, obj, n)
  {
    if n > 0 {
      HistoryAgree(a, b, obj, n - 1);
    }
  }

  lemma HistorySnoc(credits: seq<CreditRecord>, r: CreditRecord, obj: nat)
    ensures HistoryOf(credits + [r], obj, |credits| + 1) ==
            HistoryOf(credits, obj, |credits|) + if r.obj == obj then [CreditOf(r)] else []
  {
    HistoryAgree(credits + [r], credits, obj, |credits|);
  }

  /** The ring of an object is the ring of its credits. */
  ghost predicate Tracks(credits: seq<CreditRecord>, ring: seq<TrafficEntry>, obj: nat) {
    ring == RingOf(HistoryOf(credits, obj, |credits|))
  }

  ghost predicate RingsTrack(credits: seq<CreditRecord>, procs: seq<Proc>) {
    && (forall k :: 0 <= k < |credits| ==> credits[k].obj < |procs|)
    && forall obj :: 0 <= obj < |procs| ==> Tracks(credits, procs[obj].ring, obj)
  }

  /** One more credit, to the object's ring and to its history. */
  lemma CreditTracks(credits: seq<CreditRecord>, ring: seq<TrafficEntry>, c: CreditRecord, o: nat)
    requires Tracks(credits, ring, o)
    ensures Tracks(credits + [c], if o == c.obj then CreditRing(ring, CreditOf(c)) else ring, o)
  {
    HistorySnoc(credits, c, o);
    var h := HistoryOf(credits, o, |credits|);
    assert h + [] == h;
    Snoc(h, CreditOf(c));
  }

  lemma CreditingTracks(s: State, job: Job, obj: nat)
    requires obj < |s.tables.procs| && RingsTrack(s.log.credits, s.tables.procs)
    ensures var r := Crediting(s, job, obj); RingsTrack(r.log.credits, r.tables.procs)
  {
    var credits, procs, c := s.log.credits, s.tables.procs, CreditRecord(job, obj, s.clock / SECOND);
    var p := procs[obj].(ring := CreditRing(procs[obj].ring, CreditOf(c)));
    var after := procs[obj := p];
    forall o | 0 <= o < |after| ensures Tracks(credits + [c], after[o].ring, o) {
      CreditTracks(credits, procs[o].ring, c, o);
    }
  }

  lemma {:induction false} NoHistory(credits: seq<CreditRecord>, obj: nat, n: nat)
    requires n <= |credits| && forall k :: 0 <= k < |credits| ==> credits[k].obj != obj
    ensures HistoryOf(credits, obj, n) == []
  {
    if n > 0 {
      NoHistory(credits, obj, n - 1);
    }
  }

  lemma ScanTracks(s: State, scan: Scan, addOrder: seq<string>, indexOrder: seq<string>)
    requires s.flow.phase.Rescanning? && IsOrder(addOrder, scan.Keys) && IsOrder(indexOrder, scan.Keys)
    requires RingsTrack(s.log.credits, s.tables.procs)
    ensures var r := ScanStep(s, scan, addOrder, indexOrder); RingsTrack(r.log.credits, r.tables.procs)
  {
    AddScannedKeepsRings(s.tables, scan, addOrder);
    var u := AddScanned(s.tables, scan, addOrder);
    forall o | |s.tables.procs| <= o < |u.procs|
      ensures Tracks(s.log.credits, u.procs[o].ring, o)
    {
      NoHistory(s.log.credits, o, |s.log.credits|);
    }
  }

  lemma StepTracks(s: State, a: Action)
    requires Enabled(s, a) && InRange(s) && RingsTrack(s.log.credits, s.tables.procs)
    ensures RingsTrack(Apply(s, a).log.credits, Apply(s, a).tables.procs)
  {
    RingChanges(s, a);
    match RingChangeOf(s, a)
    case Untouched =>
    case Credits(before, job, obj) =>
      FoundInRange(s, a);
      CreditingTracks(before, job, obj);
    case Scans =>
      ScanTracks(s, a.scan, a.addOrder, a.indexOrder);
  }

  /** Credits are recorded in clock order. */
  ghost predicate InClockOrder(credits: seq<CreditRecord>, now: int) {
    && (forall i, j :: 0 <= i < j < |credits| ==> credits[i].at <= credits[j].at)
    && forall i :: 0 <= i < |credits| ==> credits[i].at <= now
  }

  lemma StepClock(s: State, a: Action)
    requires Enabled(s, a) && InClockOrder(s.log.credits, s.clock / SECOND)
    ensures InClockOrder(Apply(s, a).log.credits, Apply(s, a).clock / SECOND)
  {
    RingChanges(s, a);
    ClockMonotone(s, a);
  }

  lemma ClockMonotone(s: State, a: Action)
    requires Enabled(s, a)
    ensures s.clock / SECOND <= Apply(s, a).clock / SECOND
    ensures !a.Tick? ==> Apply(s, a).clock == s.clock
    ensures a.Tick? ==> Apply(s, a).log == s.log
  {
  }

  lemma {:induction false} HistoryInOrder(credits: seq<CreditRecord>, obj: nat, n: nat, now: int)
    requires n <= |credits| && InClockOrder(credits, now)
    ensures Monotone(HistoryOf(credits, obj, n))
    ensures NoneAfter(HistoryOf(credits, obj, n), if n == 0 then now else credits[n - 1].at)
    ensures NoneAfter(HistoryOf(credits, obj, n), now)
  {
    if n > 0 {
      HistoryInOrder(credits, obj, n - 1, now);
    }
  }

  lemma {:induction false} RunTracks(s: State, actions: seq<Action>, r: State)
    requires Run(s, actions, r) && InRange(s)
    requires RingsTrack(s.log.credits, s.tables.procs) && InClockOrder(s.log.credits, s.clock / SECOND)
    ensures RingsTrack(r.log.credits, r.tables.procs) && InClockOrder(r.log.credits, r.clock / SECOND)
    decreases |actions|
  {
    if actions != [] {
      StepInRange(s, actions[0]);
      StepTracks(s, actions[0]);
      StepClock(s, actions[0]);
      RunTracks(Apply(s, actions[0]), actions[1..], r);
    }
  }

  /** Over every run each ring is the ring of the credits its object received, which
      were made in clock order. */
  lemma RingTracksHistory(s: State, obj: nat)
    requires Reachable(s) && obj < |s.tables.procs|
    ensures s.tables.procs[obj].ring == RingOf(History(s, obj))
    ensures Monotone(History(s, obj)) && NoneAfter(History(s, obj), s.clock / SECOND)
  {
    var s0, actions :| IsInit(s0) && Run(s0, actions, s);
    RunTracks(s0, actions, s);
    HistoryInOrder(s.log.credits, obj, |s.log.credits|, s.clock / SECOND);
  }

  /** Over every interleaving of workers, syncer and rescans, a window of at most 59
      seconds on a process's ring reports exactly what that process was credited in
      the window, however much the ring has shed. */
  lemma WindowExactInEveryRun(s: State, obj: nat, sec: int, side: Side)
    requires Reachable(s) && obj < |s.tables.procs| && sec <= 59
    ensures var now := s.clock / 1_000_000_000;
            SumFrom(s.tables.procs[obj].ring, now - sec, side) == WindowTotal(History(s, obj), now - sec, side)
  {
    RingTracksHistory(s, obj);
    RingWindow(s.tables.procs[obj].ring, History(s, obj), s.clock / SECOND, sec, side);
  }

  // ------------------------------------------------ windows are sums of packets

  /** The length of a packet if the host sent it, or if it did not; else nothing. */
  function BytesOf(p: Packet, bindIPs: set<string>, sent: bool): int {
    if p.tcp.None? then 0
    else
      var g := p.tcp.value;
      if Dotted(g.ends.ip) in bindIPs <==> sent then 4 * g.ihl + 4 * g.dataOffset + g.payload else 0
  }

  /** A job counts what its packet weighs, on the side the packet's source decides. */
  predicate Measured(job: Job, bindIPs: set<string>, sent: bool) {
    BytesOf(job.packet, bindIPs, sent) == if job.side == Output <==> sent then job.bytes else 0
  }

  lemma MeasuredWhenMade(bindIPs: set<string>, sent: bool)
    ensures HoldsWhenMade(job => Measured(job, bindIPs, sent), bindIPs)
  {
  }

  /** The sum, over the first n credits that went to the object at seconds no earlier than
      `from`, of what their packets weigh. */
  ghost function Carried(credits: seq<CreditRecord>, n: nat, obj: nat, from: int, weigh: Packet -> int): int
    requires n <= |credits|
  {
    if n == 0 then 0
    else Carried(credits, n - 1, obj, from, weigh) +
         if credits[n - 1].obj == obj && credits[n - 1].at >= from then weigh(credits[n - 1].job.packet) else 0
  }

  lemma WindowSnoc(h: seq<Credit>, c: Credit, from: int, side: Side)
    ensures WindowTotal(h + [c], from, side) ==
            WindowTotal(h, from, side) + if c.at >= from then AmountOf(c, side) else 0
  {
    assert (h + [c])[..|h|] == h;
  }

  lemma {:induction false} CarriedIsTotal(credits: seq<CreditRecord>, n: nat, obj: nat, from: int,
                                          weigh: Packet -> int, side: Side)
    requires n <= |credits|
    requires forall k :: 0 <= k < n ==> weigh(credits[k].job.packet) == AmountOf(CreditOf(credits[k]), side)
    ensures WindowTotal(HistoryOf(credits, obj, n), from, side) == Carried(credits, n, obj, from, weigh)
  {
    if n > 0 {
      CarriedIsTotal(credits, n - 1, obj, from, weigh, side);
      var h, c := HistoryOf(credits, obj, n - 1), credits[n - 1];
      WindowSnoc(h, CreditOf(c), from, side);
      assert h + [] == h;
    }
  }

  lemma CreditsMeasured(s: State, side: Side)
    requires Reachable(s)
    ensures var weigh := (p: Packet) => BytesOf(p, s.bindIPs, side == Output);
            forall k :: 0 <= k < |s.log.credits| ==>
              weigh(s.log.credits[k].job.packet) == AmountOf(CreditOf(s.log.credits[k]), side)
  {
    var bindIPs := s.bindIPs;
    MeasuredWhenMade(bindIPs, side == Output);
    ReachableJobs(s, job => Measured(job, bindIPs, side == Output));
  }

  /** In every reachable state, what a window of at most 59 seconds on a process's ring
      sums up as output is the length of every packet credited to it in the window that
      one of the host's addresses sent, and as input of every other one. */
  lemma WindowsSumPackets(s: State, obj: nat, sec: int, side: Side)
    requires Reachable(s) && obj < |s.tables.procs| && sec <= 59
    ensures var from := s.clock / 1_000_000_000 - sec; var credits := s.log.credits;
            SumFrom(s.tables.procs[obj].ring, from, side) ==
            Carried(credits, |credits|, obj, from, p => BytesOf(p, s.bindIPs, side == Output))
  {
    var from, weigh := s.clock / SECOND - sec, (p: Packet) => BytesOf(p, s.bindIPs, side == Output);
    CreditsMeasured(s, side);
    WindowExactInEveryRun(s, obj, sec, side);
    CarriedIsTotal(s.log.credits, |s.log.credits|, obj, from, weigh, side);
  }
}
