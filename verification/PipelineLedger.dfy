/** Conservation in the pipeline: nothing captured is lost track of or counted
    twice, and every credited byte is in a ring or was shed from one. */
module PipelineLedger {
  import opened Options
  import opened Pipeline

  // ------------------------------------------------------- additive measures

  function Weight(p: Option<Packet>, g: Packet -> int): int {
    if p.None? then 0 else g(p.value)
  }

  /** The measure g of all packets found in the elements of a sequence. */
  ghost function Total<T>(s: seq<T>, packetOf: T -> Option<Packet>, g: Packet -> int): int {
    TotalTo(s, |s|, packetOf, g)
  }

  ghost function TotalTo<T>(s: seq<T>, n: nat, packetOf: T -> Option<Packet>, g: Packet -> int): int
    requires n <= |s|
  {
    if n == 0 then 0 else TotalTo(s, n - 1, packetOf, g) + Weight(packetOf(s[n - 1]), g)
  }

  lemma {:induction false} TotalAgree<T>(s: seq<T>, t: seq<T>, n: nat, packetOf: T -> Option<Packet>, g: Packet -> int)
    requires n <= |s| && n <= |t| && forall i :: 0 <= i < n ==> s[i] == t[i]
    ensures TotalTo(s, n, packetOf, g) == TotalTo(t, n, packetOf, g)
  {
    if n > 0 {
      TotalAgree(s, t, n - 1, packetOf, g);
    }
  }

  lemma TotalSnoc<T>(s: seq<T>, x: T, packetOf: T -> Option<Packet>, g: Packet -> int)
    ensures Total(s + [x], packetOf, g) == Total(s, packetOf, g) + Weight(packetOf(x), g)
  {
    TotalAgree(s + [x], s, |s|, packetOf, g);
  }

  lemma {:induction false} TotalShift<T>(s: seq<T>, n: nat, packetOf: T -> Option<Packet>, g: Packet -> int)
    requires 1 <= n <= |s|
    ensures TotalTo(s, n, packetOf, g) == Weight(packetOf(s[0]), g) + TotalTo(s[1..], n - 1, packetOf, g)
  {
    if n > 1 {
      TotalShift(s, n - 1, packetOf, g);
    }
  }

  lemma TotalHead<T>(s: seq<T>, packetOf: T -> Option<Packet>, g: Packet -> int)
    requires s != []
    ensures Total(s, packetOf, g) == Weight(packetOf(s[0]), g) + Total(s[1..], packetOf, g)
  {
    TotalShift(s, |s|, packetOf, g);
  }

  lemma {:induction false} TotalSetTo<T>(s: seq<T>, i: nat, x: T, n: nat,
                                         packetOf: T -> Option<Packet>, g: Packet -> int)
    requires i < n <= |s|
    ensures TotalTo(s[i := x], n, packetOf, g) ==
            TotalTo(s, n, packetOf, g) - Weight(packetOf(s[i]), g) + Weight(packetOf(x), g)
  {
    if i < n - 1 {
      TotalSetTo(s, i, x, n - 1, packetOf, g);
    } else {
      TotalAgree(s[i := x], s, n - 1, packetOf, g);
    }
  }

  lemma TotalSet<T>(s: seq<T>, i: nat, x: T, packetOf: T -> Option<Packet>, g: Packet -> int)
    requires i < |s|
    ensures Total(s[i := x], packetOf, g) ==
            Total(s, packetOf, g) - Weight(packetOf(s[i]), g) + Weight(packetOf(x), g)
  {
    TotalSetTo(s, i, x, |s|, packetOf, g);
  }

  // ------------------------------------------------------- where packets are

  function Itself(p: Packet): Option<Packet> { Some(p) }
  function OfWorker(w: Worker): Option<Packet> {
    match w
    case Idle => None
    case Exited => None
    case Holding(p) => Some(p)
    case Probing(job, _) => Some(job.packet)
    case Stamped(e) => Some(e.job.packet)
  }

  function OfEntry(e: DelayEntry): Option<Packet> { Some(e.job.packet) }
  function OfCredit(r: CreditRecord): Option<Packet> { Some(r.job.packet) }
  function OfForwarder(d: Device): Option<Packet> { d.forwarding }
  /** A retry that credited is in the credits already. */
  function OfFailure(r: Retry): Option<Packet> { if r.outcome.None? then Some(r.entry.job.packet) else None }

  function OfHeld(h: Option<DelayEntry>): Option<Packet> {
    if h.None? then None else Some(h.value.job.packet)
  }

  ghost function Buffered(ds: seq<Device>, g: Packet -> int): int {
    BufferedTo(ds, |ds|, g)
  }

  ghost function BufferedTo(ds: seq<Device>, n: nat, g: Packet -> int): int
    requires n <= |ds|
  {
    if n == 0 then 0 else BufferedTo(ds, n - 1, g) + Total(ds[n - 1].buffer, Itself, g)
  }

  lemma {:induction false} BufferedSetTo(ds: seq<Device>, i: nat, d: Device, n: nat, g: Packet -> int)
    requires i < |ds| && n <= |ds|
    ensures BufferedTo(ds[i := d], n, g) ==
            BufferedTo(ds, n, g) + if i < n then Total(d.buffer, Itself, g) - Total(ds[i].buffer, Itself, g) else 0
  {
    if n > 0 {
      BufferedSetTo(ds, i, d, n - 1, g);
    }
  }

  lemma BufferedSet(ds: seq<Device>, i: nat, d: Device, g: Packet -> int)
    requires i < |ds|
    ensures Buffered(ds[i := d], g) == Buffered(ds, g) - Total(ds[i].buffer, Itself, g) + Total(d.buffer, Itself, g)
  {
    BufferedSetTo(ds, i, d, |ds|, g);
  }

  /** Where the captured packets are. */
  datatype Intake = Intake(arrived: seq<Packet>, bufferDrops: seq<Packet>, devices: seq<Device>,
                           queueDrops: seq<Packet>, accepted: seq<Packet>)

  function IntakeOf(s: State): Intake {
    Intake(s.log.arrived, s.log.bufferDrops, s.flow.devices, s.log.queueDrops, s.log.accepted)
  }

  /** Captured packets are dropped at the buffer, in a buffer, in a forwarder's
      hands, dropped at the queue, or accepted. */
  ghost predicate Captured(x: Intake, g: Packet -> int) {
    Total(x.arrived, Itself, g) ==
      Total(x.bufferDrops, Itself, g) + Buffered(x.devices, g) + Total(x.devices, OfForwarder, g)
      + Total(x.queueDrops, Itself, g) + Total(x.accepted, Itself, g)
  }

  ghost predicate CaptureConserved(s: State, g: Packet -> int) {
    Captured(IntakeOf(s), g)
  }

  /** Where the accepted packets are. */
  datatype Ledger = Ledger(accepted: seq<Packet>, queue: seq<Packet>, workers: seq<Worker>,
                           delayed: seq<DelayEntry>, held: Option<DelayEntry>, ignored: seq<Packet>,
                           credits: seq<CreditRecord>, overflow: seq<DelayEntry>, retries: seq<Retry>)

  function LedgerOf(s: State): Ledger {
    Ledger(s.log.accepted, s.flow.packetQueue, s.flow.workers, s.flow.delayQueue, s.flow.held,
           s.log.ignored, s.log.credits, s.log.overflow, s.log.retries)
  }

  /** Accepted packets are queued, in a worker's hands, delayed, held by the syncer,
      ignored for want of a layer, credited, lost to delay overflow, or discarded
      after a failed retry. */
  ghost predicate Balanced(l: Ledger, g: Packet -> int) {
    Total(l.accepted, Itself, g) ==
      Total(l.queue, Itself, g) + Total(l.workers, OfWorker, g)
      + Total(l.delayed, OfEntry, g) + Weight(OfHeld(l.held), g)
      + Total(l.ignored, Itself, g) + Total(l.credits, OfCredit, g)
      + Total(l.overflow, OfEntry, g) + Total(l.retries, OfFailure, g)
  }

  ghost predicate Conserved(s: State, g: Packet -> int) {
    Balanced(LedgerOf(s), g)
  }

  /** Objects that lookups name exist. */
  predicate InRange(s: State) {
    && (forall w :: 0 <= w < |s.flow.workers| ==> ProbeInRange(s.flow.workers[w], |s.tables.procs|))
    && (s.flow.phase.Handling? && s.flow.phase.probe.Found? ==> s.flow.phase.probe.obj < |s.tables.procs|)
    && (forall pid :: pid in s.tables.dict ==> s.tables.dict[pid] < |s.tables.procs|)
    && (s.flow.phase.Handling? ==> s.flow.held.Some?)
  }

  predicate ProbeInRange(w: Worker, n: nat) {
    w.Probing? && w.probe.Found? ==> w.probe.obj < n
  }

  // --------------------------------------------------------- in range, always

  lemma {:induction false} AddScannedInRange(t: Tables, scan: map<string, seq<string>>, order: seq<string>)
    requires forall i :: 0 <= i < |order| ==> order[i] in scan
    requires forall pid :: pid in t.dict ==> t.dict[pid] < |t.procs|
    ensures var u := AddScanned(t, scan, order);
            |t.procs| <= |u.procs| && forall pid :: pid in u.dict ==> u.dict[pid] < |u.procs|
  {
    if order != [] {
      AddScannedInRange(t, scan, order[..|order| - 1]);
    }
  }

  lemma StepInRange(s: State, a: Action)
    requires Enabled(s, a) && InRange(s)
    ensures InRange(Apply(s, a))
  {
    if a.ScanProcesses? {
      ScanInRange(s, a.scan, a.addOrder, a.indexOrder);
    } else if a.Work? {
      WorkInRange(s, a.w);
    } else if a.HandleStep? {
      RetryInRange(s);
    } else {
      OtherInRange(s, a);
    }
  }

  lemma ScanInRange(s: State, scan: map<string, seq<string>>, addOrder: seq<string>, indexOrder: seq<string>)
    requires Enabled(s, ScanProcesses(scan, addOrder, indexOrder)) && InRange(s)
    ensures InRange(ScanStep(s, scan, addOrder, indexOrder))
  {
    AddScannedInRange(s.tables, scan, addOrder);
  }

  lemma RetryInRange(s: State)
    requires s.flow.phase.Handling? && s.flow.held.Some? && InRange(s)
    ensures InRange(RetryStep(s))
  {
  }

  lemma OtherInRange(s: State, a: Action)
    requires Enabled(s, a) && InRange(s) && !a.ScanProcesses? && !a.Work? && !a.HandleStep?
    ensures InRange(Apply(s, a))
  {
  }

  lemma WorkInRange(s: State, w: nat)
    requires w < |s.flow.workers| && InRange(s)
    ensures InRange(WorkStep(s, w))
  {
    var x := s.flow.workers[w];
    if x.Holding? {
      InspectInRange(s, w, x.packet);
    } else if x.Probing? {
      ProbingInRange(s, w, x.job, x.probe);
    } else if x.Stamped? {
      PushInRange(s, w, x.entry);
    }
  }

  lemma InspectInRange(s: State, w: nat, p: Packet)
    requires w < |s.flow.workers| && InRange(s)
    ensures InRange(InspectStep(s, w, p))
  {
  }

  lemma ProbingInRange(s: State, w: nat, job: Job, probe: Probe)
    requires w < |s.flow.workers| && s.flow.workers[w] == Probing(job, probe) && InRange(s)
    ensures InRange(WorkStep(s, w))
  {
  }

  lemma PushInRange(s: State, w: nat, e: DelayEntry)
    requires w < |s.flow.workers| && InRange(s)
    ensures InRange(PushStep(s, w, e))
  {
  }

  lemma {:induction false} RunInRange(s: State, actions: seq<Action>, r: State)
    requires InRange(s) && Run(s, actions, r)
    ensures InRange(r)
    decreases |actions|
  {
    if actions != [] {
      StepInRange(s, actions[0]);
      RunInRange(Apply(s, actions[0]), actions[1..], r);
    }
  }

  lemma ReachableInRange(s: State)
    requires Reachable(s)
    ensures InRange(s)
  {
    var s0, actions :| IsInit(s0) && Run(s0, actions, s);
    RunInRange(s0, actions, s);
  }

  // ------------------------------------------------------------- conservation

  lemma {:induction false} NoneHeld<T>(s: seq<T>, n: nat, packetOf: T -> Option<Packet>, g: Packet -> int)
    requires n <= |s| && forall i :: 0 <= i < |s| ==> packetOf(s[i]) == None
    ensures TotalTo(s, n, packetOf, g) == 0
  {
    if n > 0 {
      NoneHeld(s, n - 1, packetOf, g);
    }
  }

  lemma {:induction false} NoneBuffered(ds: seq<Device>, n: nat, g: Packet -> int)
    requires n <= |ds| && forall i :: 0 <= i < |ds| ==> ds[i].buffer == []
    ensures BufferedTo(ds, n, g) == 0
  {
    if n > 0 {
      NoneBuffered(ds, n - 1, g);
    }
  }

  lemma InitConserved(s: State, g: Packet -> int)
    requires IsInit(s)
    ensures CaptureConserved(s, g) && Conserved(s, g)
  {
    NoneHeld(s.flow.devices, |s.flow.devices|, OfForwarder, g);
    NoneBuffered(s.flow.devices, |s.flow.devices|, g);
    NoneHeld(s.flow.workers, |s.flow.workers|, OfWorker, g);
  }

  lemma BufferIn(x: Intake, g: Packet -> int, d: nat, p: Packet)
    requires Captured(x, g) && d < |x.devices|
    ensures Captured(x.(arrived := x.arrived + [p], bufferDrops := x.bufferDrops + [p]), g)
    ensures var dev := x.devices[d].(buffer := x.devices[d].buffer + [p]);
            Captured(x.(arrived := x.arrived + [p], devices := x.devices[d := dev]), g)
  {
    var dev := x.devices[d].(buffer := x.devices[d].buffer + [p]);
    TotalSnoc(x.arrived, p, Itself, g);
    TotalSnoc(x.bufferDrops, p, Itself, g);
    TotalSnoc(x.devices[d].buffer, p, Itself, g);
    BufferedSet(x.devices, d, dev, g);
    TotalSet(x.devices, d, dev, OfForwarder, g);
  }

  lemma BufferOut(x: Intake, g: Packet -> int, d: nat)
    requires Captured(x, g) && d < |x.devices| && x.devices[d].forwarding.None? && x.devices[d].buffer != []
    ensures var b := x.devices[d].buffer; Captured(x.(devices := x.devices[d := Device(b[1..], Some(b[0]))]), g)
  {
    var b := x.devices[d].buffer;
    var dev := Device(b[1..], Some(b[0]));
    TotalHead(b, Itself, g);
    BufferedSet(x.devices, d, dev, g);
    TotalSet(x.devices, d, dev, OfForwarder, g);
  }

  lemma HandOver(x: Intake, g: Packet -> int, d: nat, p: Packet)
    requires Captured(x, g) && d < |x.devices| && x.devices[d].forwarding == Some(p)
    ensures var ds := x.devices[d := x.devices[d].(forwarding := None)];
            && Captured(x.(devices := ds, queueDrops := x.queueDrops + [p]), g)
            && Captured(x.(devices := ds, accepted := x.accepted + [p]), g)
  {
    var dev := x.devices[d].(forwarding := None);
    BufferedSet(x.devices, d, dev, g);
    TotalSet(x.devices, d, dev, OfForwarder, g);
    TotalSnoc(x.accepted, p, Itself, g);
    TotalSnoc(x.queueDrops, p, Itself, g);
  }

  /** No step creates, loses or duplicates a captured packet. */
  lemma CaptureStep(s: State, a: Action, g: Packet -> int)
    requires Enabled(s, a) && CaptureConserved(s, g)
    ensures CaptureConserved(Apply(s, a), g)
  {
    if a.Arrive? {
      BufferIn(IntakeOf(s), g, a.dev, Packet(|s.log.arrived|, a.tcp));
    } else if a.Forward? {
      BufferOut(IntakeOf(s), g, a.dev);
    } else if a.Enqueue? {
      HandOver(IntakeOf(s), g, a.dev, s.flow.devices[a.dev].forwarding.value);
    } else {
      CaptureUntouched(s, a);
    }
  }

  lemma CaptureUntouched(s: State, a: Action)
    requires Enabled(s, a) && !a.Arrive? && !a.Forward? && !a.Enqueue?
    ensures IntakeOf(Apply(s, a)) == IntakeOf(s)
  {
  }

  lemma Accept(l: Ledger, g: Packet -> int, p: Packet)
    requires Balanced(l, g)
    ensures Balanced(l.(accepted := l.accepted + [p], queue := l.queue + [p]), g)
  {
    TotalSnoc(l.accepted, p, Itself, g);
    TotalSnoc(l.queue, p, Itself, g);
  }

  lemma Take(l: Ledger, g: Packet -> int, w: nat)
    requires Balanced(l, g) && l.queue != [] && w < |l.workers| && l.workers[w].Idle?
    ensures Balanced(l.(queue := l.queue[1..], workers := l.workers[w := Holding(l.queue[0])]), g)
  {
    TotalHead(l.queue, Itself, g);
    TotalSet(l.workers, w, Holding(l.queue[0]), OfWorker, g);
  }

  lemma Progress(l: Ledger, g: Packet -> int, w: nat, x: Worker)
    requires Balanced(l, g) && w < |l.workers| && OfWorker(x) == OfWorker(l.workers[w])
    ensures Balanced(l.(workers := l.workers[w := x]), g)
  {
    TotalSet(l.workers, w, x, OfWorker, g);
  }

  lemma Ignore(l: Ledger, g: Packet -> int, w: nat, p: Packet)
    requires Balanced(l, g) && w < |l.workers| && OfWorker(l.workers[w]) == Some(p)
    ensures Balanced(l.(workers := l.workers[w := Idle], ignored := l.ignored + [p]), g)
  {
    TotalSet(l.workers, w, Idle, OfWorker, g);
    TotalSnoc(l.ignored, p, Itself, g);
  }

  lemma CreditNow(l: Ledger, g: Packet -> int, w: nat, r: CreditRecord)
    requires Balanced(l, g) && w < |l.workers| && OfWorker(l.workers[w]) == Some(r.job.packet)
    ensures Balanced(l.(workers := l.workers[w := Idle], credits := l.credits + [r]), g)
  {
    TotalSet(l.workers, w, Idle, OfWorker, g);
    TotalSnoc(l.credits, r, OfCredit, g);
  }

  lemma Delay(l: Ledger, g: Packet -> int, w: nat, e: DelayEntry)
    requires Balanced(l, g) && w < |l.workers| && l.workers[w] == Stamped(e)
    ensures Balanced(l.(workers := l.workers[w := Idle], delayed := l.delayed + [e]), g)
    ensures Balanced(l.(workers := l.workers[w := Idle], overflow := l.overflow + [e]), g)
  {
    TotalSet(l.workers, w, Idle, OfWorker, g);
    TotalSnoc(l.delayed, e, OfEntry, g);
    TotalSnoc(l.overflow, e, OfEntry, g);
  }

  lemma Pop(l: Ledger, g: Packet -> int)
    requires Balanced(l, g) && l.delayed != [] && l.held.None?
    ensures Balanced(l.(delayed := l.delayed[1..], held := Some(l.delayed[0])), g)
  {
    TotalHead(l.delayed, OfEntry, g);
  }

  lemma CreditLater(l: Ledger, g: Packet -> int, t: Retry, r: CreditRecord)
    requires Balanced(l, g) && l.held == Some(t.entry) && t.outcome.Some? && r.job.packet == t.entry.job.packet
    ensures Balanced(l.(held := None, credits := l.credits + [r], retries := l.retries + [t]), g)
  {
    TotalSnoc(l.retries, t, OfFailure, g);
    TotalSnoc(l.credits, r, OfCredit, g);
  }

  lemma Discard(l: Ledger, g: Packet -> int, t: Retry)
    requires Balanced(l, g) && l.held == Some(t.entry) && t.outcome.None?
    ensures Balanced(l.(held := None, retries := l.retries + [t]), g)
  {
    TotalSnoc(l.retries, t, OfFailure, g);
  }

  lemma InspectConserved(s: State, w: nat, p: Packet, g: Packet -> int)
    requires w < |s.flow.workers| && s.flow.workers[w] == Holding(p) && Conserved(s, g)
    ensures Conserved(InspectStep(s, w, p), g)
  {
    if p.tcp.None? {
      Ignore(LedgerOf(s), g, w, p);
    } else {
      Progress(LedgerOf(s), g, w, Probing(JobOf(p, p.tcp.value, s.bindIPs), ByAddr));
    }
  }

  lemma PushConserved(s: State, w: nat, e: DelayEntry, g: Packet -> int)
    requires w < |s.flow.workers| && s.flow.workers[w] == Stamped(e) && Conserved(s, g)
    ensures Conserved(PushStep(s, w, e), g)
  {
    Delay(LedgerOf(s), g, w, e);
  }

  lemma WorkConserved(s: State, w: nat, g: Packet -> int)
    requires w < |s.flow.workers| && Conserved(s, g) && InRange(s)
    ensures Conserved(WorkStep(s, w), g)
  {
    var x := s.flow.workers[w];
    if x.Holding? {
      InspectConserved(s, w, x.packet, g);
    } else if x.Probing? {
      ProbeConserved(s, w, x.job, x.probe, g);
    } else if x.Stamped? {
      PushConserved(s, w, x.entry, g);
    }
  }

  lemma ProbeConserved(s: State, w: nat, job: Job, probe: Probe, g: Packet -> int)
    requires w < |s.flow.workers| && s.flow.workers[w] == Probing(job, probe) && Conserved(s, g) && InRange(s)
    ensures Conserved(WorkStep(s, w), g)
  {
    var l := LedgerOf(s);
    if probe.Found? {
      assert ProbeInRange(l.workers[w], |s.tables.procs|);
      CreditNow(l, g, w, CreditRecord(job, probe.obj, s.clock / SECOND));
    } else if probe.Missing? {
      Progress(l, g, w, Stamped(DelayEntry(s.clock, job, w)));
    } else {
      Progress(l, g, w, Probing(job, Probed(s.tables, job.addr, probe)));
    }
  }

  lemma RetryConserved(s: State, g: Packet -> int)
    requires s.flow.phase.Handling? && s.flow.held.Some? && Conserved(s, g) && InRange(s)
    ensures Conserved(RetryStep(s), g)
  {
    var e, t := s.flow.held.value, s.flow.phase.lastTime;
    if s.flow.phase.probe.Found? {
      var obj := s.flow.phase.probe.obj;
      CreditLater(LedgerOf(s), g, Retry(e, t, Some(obj)), CreditRecord(e.job, obj, s.clock / SECOND));
    } else if s.flow.phase.probe.Missing? {
      Discard(LedgerOf(s), g, Retry(e, t, None));
    }
  }

  /** No step creates, loses or duplicates an accepted packet. */
  lemma ConservedStep(s: State, a: Action, g: Packet -> int)
    requires Enabled(s, a) && Conserved(s, g) && InRange(s)
    ensures Conserved(Apply(s, a), g)
  {
    if a.Work? {
      WorkConserved(s, a.w, g);
    } else if a.HandleStep? {
      RetryConserved(s, g);
    } else {
      QueueConserved(s, a, g);
    }
  }

  lemma EnqueueConserved(s: State, d: nat, g: Packet -> int)
    requires d < |s.flow.devices| && s.flow.devices[d].forwarding.Some? && Conserved(s, g)
    ensures Conserved(EnqueueStep(s, d), g)
  {
    Accept(LedgerOf(s), g, s.flow.devices[d].forwarding.value);
  }

  lemma DequeueConserved(s: State, w: nat, g: Packet -> int)
    requires w < |s.flow.workers| && s.flow.workers[w].Idle? && s.flow.packetQueue != [] && Conserved(s, g)
    ensures Conserved(DequeueStep(s, w), g)
  {
    Take(LedgerOf(s), g, w);
  }

  lemma ConsumeConserved(s: State, g: Packet -> int)
    requires s.flow.held.None? && Conserved(s, g)
    ensures Conserved(ConsumeStep(s), g)
  {
    if s.flow.delayQueue != [] {
      Pop(LedgerOf(s), g);
    }
  }

  lemma QueueConserved(s: State, a: Action, g: Packet -> int)
    requires Enabled(s, a) && Conserved(s, g) && !a.Work? && !a.HandleStep?
    ensures Conserved(Apply(s, a), g)
  {
    if a.Enqueue? {
      EnqueueConserved(s, a.dev, g);
    } else if a.Dequeue? {
      DequeueConserved(s, a.w, g);
    } else if a.Exit? {
      Progress(LedgerOf(s), g, a.w, Exited);
    } else if a.Consume? {
      ConsumeConserved(s, g);
    } else {
      LedgerUntouched(s, a);
    }
  }

  lemma LedgerUntouched(s: State, a: Action)
    requires Enabled(s, a) && !a.Work? && !a.HandleStep? && !a.Enqueue? && !a.Dequeue? && !a.Exit? && !a.Consume?
    ensures LedgerOf(Apply(s, a)) == LedgerOf(s)
  {
  }

  lemma {:induction false} RunConserved(s: State, actions: seq<Action>, r: State, g: Packet -> int)
    requires Run(s, actions, r) && InRange(s) && CaptureConserved(s, g) && Conserved(s, g)
    ensures CaptureConserved(r, g) && Conserved(r, g)
    decreases |actions|
  {
    if actions != [] {
      StepInRange(s, actions[0]);
      CaptureStep(s, actions[0], g);
      ConservedStep(s, actions[0], g);
      RunConserved(Apply(s, actions[0]), actions[1..], r, g);
    }
  }

  /** Over every interleaving, every additive measure of packets is conserved. */
  lemma Conservation(s: State, g: Packet -> int)
    requires Reachable(s)
    ensures CaptureConserved(s, g) && Conserved(s, g)
  {
    var s0, actions :| IsInit(s0) && Run(s0, actions, s);
    InitConserved(s0, g);
    RunConserved(s0, actions, s, g);
  }

  // ------------------------------------------------------- bounds and counter

  /** Queues stay within their capacity and the counter counts accepted packets. */
  ghost predicate WithinBounds(s: State) {
    && s.counter == |s.log.accepted|
    && |s.flow.packetQueue| <= 2_000_000 && |s.flow.delayQueue| <= 2_000_000
    && forall d :: 0 <= d < |s.flow.devices| ==> |s.flow.devices[d].buffer| <= 10_000_000
  }

  lemma StepWithinBounds(s: State, a: Action)
    requires Enabled(s, a) && WithinBounds(s)
    ensures WithinBounds(Apply(s, a))
  {
    if a.Work? {
      WorkWithinBounds(s, a.w);
    }
  }

  lemma WorkWithinBounds(s: State, w: nat)
    requires w < |s.flow.workers| && WithinBounds(s)
    ensures WithinBounds(WorkStep(s, w))
  {
  }

  lemma {:induction false} RunWithinBounds(s: State, actions: seq<Action>, r: State)
    requires Run(s, actions, r) && WithinBounds(s)
    ensures WithinBounds(r)
    decreases |actions|
  {
    if actions != [] {
      StepWithinBounds(s, actions[0]);
      RunWithinBounds(Apply(s, actions[0]), actions[1..], r);
    }
  }

  /** Over every run no queue exceeds its capacity, and LoadCounter is the number of
      packets packetQueue ever accepted. */
  lemma ReachableWithinBounds(s: State)
    requires Reachable(s)
    ensures WithinBounds(s)
  {
    var s0, actions :| IsInit(s0) && Run(s0, actions, s);
    RunWithinBounds(s0, actions, s);
  }

  // ------------------------------------------------------ nothing counts twice

  /** 1 for the packet, 0 for every other. */
  function Only(p: Packet): Packet -> int {
    q => if q == p then 1 else 0
  }

  ghost predicate NonNegative(g: Packet -> int) {
    forall p :: g(p) >= 0
  }

  lemma {:induction false} TotalNonNegative<T>(s: seq<T>, n: nat, packetOf: T -> Option<Packet>, g: Packet -> int)
    requires NonNegative(g) && n <= |s|
    ensures 0 <= TotalTo(s, n, packetOf, g)
  {
    if n > 0 {
      TotalNonNegative(s, n - 1, packetOf, g);
    }
  }

  lemma {:induction false} TotalGrows<T>(s: seq<T>, m: nat, n: nat, packetOf: T -> Option<Packet>, g: Packet -> int)
    requires NonNegative(g) && m <= n <= |s|
    ensures TotalTo(s, m, packetOf, g) <= TotalTo(s, n, packetOf, g)
    decreases n - m
  {
    if m < n {
      TotalGrows(s, m, n - 1, packetOf, g);
    }
  }

  /** A packet found at two places of a sequence counts twice. */
  lemma CountsTwice<T>(s: seq<T>, i: nat, j: nat, p: Packet, packetOf: T -> Option<Packet>)
    requires i < j < |s| && packetOf(s[i]) == Some(p) && packetOf(s[j]) == Some(p)
    ensures Total(s, packetOf, Only(p)) >= 2
  {
    TotalNonNegative(s, i, packetOf, Only(p));
    TotalGrows(s, i + 1, j, packetOf, Only(p));
    TotalGrows(s, j + 1, |s|, packetOf, Only(p));
  }

  lemma {:induction false} BufferedNonNegative(ds: seq<Device>, n: nat, g: Packet -> int)
    requires NonNegative(g) && n <= |ds|
    ensures 0 <= BufferedTo(ds, n, g)
  {
    if n > 0 {
      BufferedNonNegative(ds, n - 1, g);
      TotalNonNegative(ds[n - 1].buffer, |ds[n - 1].buffer|, Itself, g);
    }
  }

  /** Arrivals are numbered in order. */
  predicate Numbered(arrived: seq<Packet>) {
    forall i :: 0 <= i < |arrived| ==> arrived[i].id == i
  }

  lemma {:induction false} NumberedOnce(arrived: seq<Packet>, n: nat, p: Packet)
    requires Numbered(arrived) && n <= |arrived|
    ensures TotalTo(arrived, n, Itself, Only(p)) <= if 0 <= p.id < n then 1 else 0
  {
    if n > 0 {
      NumberedOnce(arrived, n - 1, p);
    }
  }

  lemma StepNumbered(s: State, a: Action)
    requires Enabled(s, a) && Numbered(s.log.arrived)
    ensures Numbered(Apply(s, a).log.arrived)
  {
  }

  lemma {:induction false} RunNumbered(s: State, actions: seq<Action>, r: State)
    requires Run(s, actions, r) && Numbered(s.log.arrived)
    ensures Numbered(r.log.arrived)
    decreases |actions|
  {
    if actions != [] {
      StepNumbered(s, actions[0]);
      RunNumbered(Apply(s, actions[0]), actions[1..], r);
    }
  }

  /** An accepted packet is accepted once. */
  lemma AcceptedOnce(s: State, p: Packet)
    requires Reachable(s)
    ensures Total(s.log.accepted, Itself, Only(p)) <= 1
  {
    var g := Only(p);
    Conservation(s, g);
    var s0, actions :| IsInit(s0) && Run(s0, actions, s);
    RunNumbered(s0, actions, s);
    NumberedOnce(s.log.arrived, |s.log.arrived|, p);
    TotalNonNegative(s.log.bufferDrops, |s.log.bufferDrops|, Itself, g);
    TotalNonNegative(s.flow.devices, |s.flow.devices|, OfForwarder, g);
    TotalNonNegative(s.log.queueDrops, |s.log.queueDrops|, Itself, g);
    BufferedNonNegative(s.flow.devices, |s.flow.devices|, g);
  }

  /** The packet is not queued, in no worker's hands, not delayed or held, and not
      among the losses. */
  ghost predicate NowhereElse(s: State, g: Packet -> int) {
    && Total(s.flow.packetQueue, Itself, g) == 0 && Total(s.flow.workers, OfWorker, g) == 0
    && Total(s.flow.delayQueue, OfEntry, g) == 0 && Weight(OfHeld(s.flow.held), g) == 0
    && Total(s.log.ignored, Itself, g) == 0 && Total(s.log.overflow, OfEntry, g) == 0
    && Total(s.log.retries, OfFailure, g) == 0
  }

  lemma CountedOnce(s: State, g: Packet -> int)
    requires Conserved(s, g) && NonNegative(g)
    requires Total(s.log.accepted, Itself, g) <= 1 <= Total(s.log.credits, OfCredit, g)
    ensures Total(s.log.credits, OfCredit, g) == 1 && NowhereElse(s, g)
  {
    TotalNonNegative(s.flow.packetQueue, |s.flow.packetQueue|, Itself, g);
    TotalNonNegative(s.flow.workers, |s.flow.workers|, OfWorker, g);
    TotalNonNegative(s.flow.delayQueue, |s.flow.delayQueue|, OfEntry, g);
    TotalNonNegative(s.log.ignored, |s.log.ignored|, Itself, g);
    TotalNonNegative(s.log.overflow, |s.log.overflow|, OfEntry, g);
    TotalNonNegative(s.log.retries, |s.log.retries|, OfFailure, g);
  }

  lemma CountsOnce<T>(s: seq<T>, i: nat, p: Packet, packetOf: T -> Option<Packet>)
    requires i < |s| && packetOf(s[i]) == Some(p)
    ensures Total(s, packetOf, Only(p)) >= 1
  {
    TotalNonNegative(s, i, packetOf, Only(p));
    TotalGrows(s, i + 1, |s|, packetOf, Only(p));
  }

  /** A credited packet is credited once and is nowhere else. */
  lemma CreditedOnceAndNowhereElse(s: State, k: nat)
    requires Reachable(s) && k < |s.log.credits|
    ensures NowhereElse(s, Only(s.log.credits[k].job.packet))
    ensures forall j :: 0 <= j < |s.log.credits| && j != k ==>
              s.log.credits[j].job.packet != s.log.credits[k].job.packet
  {
    var p := s.log.credits[k].job.packet;
    Conservation(s, Only(p));
    AcceptedOnce(s, p);
    CountsOnce(s.log.credits, k, p, OfCredit);
    CountedOnce(s, Only(p));
    forall j | 0 <= j < |s.log.credits| && j != k ensures s.log.credits[j].job.packet != p {
      if s.log.credits[j].job.packet == p {
        CountsTwice(s.log.credits, if j < k then j else k, if j < k then k else j, p, OfCredit);
      }
    }
  }
}
