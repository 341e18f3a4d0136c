/** Soundness of attribution over every interleaving: bytes are only ever credited to
    a process that some scan found holding an inode which some rescan listed under the
    packet's own key. */
module PipelineAttribution {
  import Netstat
  import opened ProcessIndex
  import opened Pipeline
  import opened PipelineTables

  /** What the rescans have ever seen. */
  datatype Seen = Seen(listed: set<Wanted>, scanned: set<(string, string)>)

  function SeenBy(s: State): Seen {
    Seen(s.log.everListed, s.log.everScanned)
  }

  ghost predicate Grows(a: Seen, b: Seen) {
    a.listed <= b.listed && a.scanned <= b.scanned
  }

  /** A rescan listed the key under an inode, and a scan found the pid holding it. */
  ghost predicate Justified(seen: Seen, addr: string, pid: string) {
    exists inode :: Wanted(addr, inode) in seen.listed && (pid, inode) in seen.scanned
  }

  ghost predicate TablesJustified(t: Tables, seen: Seen) {
    && (forall k :: k in t.conns ==> Wanted(k, t.conns[k].value) in seen.listed)
    && (forall inode :: inode in t.index ==> (t.index[inode], inode) in seen.scanned)
    && OwnObjects(t.dict, t.procs)
  }

  ghost predicate ProbeJustified(seen: Seen, procs: seq<Proc>, addr: string, probe: Probe) {
    match probe
    case ByAddr => true
    case ByInode(inode) => Wanted(addr, inode) in seen.listed
    case Found(obj) => obj < |procs| && Justified(seen, addr, procs[obj].pid)
    case Missing => true
  }

  ghost predicate WorkerJustified(seen: Seen, procs: seq<Proc>, w: Worker) {
    w.Probing? ==> ProbeJustified(seen, procs, w.job.addr, w.probe)
  }

  ghost predicate CreditJustified(seen: Seen, procs: seq<Proc>, r: CreditRecord) {
    r.obj < |procs| && Justified(seen, r.job.addr, procs[r.obj].pid)
  }

  ghost predicate WorkersJustified(seen: Seen, procs: seq<Proc>, workers: seq<Worker>) {
    forall i :: 0 <= i < |workers| ==> WorkerJustified(seen, procs, workers[i])
  }

  ghost predicate CreditsJustified(seen: Seen, procs: seq<Proc>, credits: seq<CreditRecord>) {
    forall i :: 0 <= i < |credits| ==> CreditJustified(seen, procs, credits[i])
  }

  ghost predicate HandlingJustified(seen: Seen, procs: seq<Proc>, f: Flow) {
    f.phase.Handling? && f.held.Some? ==> ProbeJustified(seen, procs, f.held.value.job.addr, f.phase.probe)
  }

  ghost predicate TodoSeen(seen: Seen, phase: Phase) {
    phase.Rescanning? ==> forall x :: x in phase.todo ==> x in seen.listed
  }

  ghost predicate AllJustified(s: State) {
    var seen := SeenBy(s);
    && TablesJustified(s.tables, seen) && TodoSeen(seen, s.flow.phase)
    && WorkersJustified(seen, s.tables.procs, s.flow.workers)
    && HandlingJustified(seen, s.tables.procs, s.flow)
    && CreditsJustified(seen, s.tables.procs, s.log.credits)
  }

  // --------------------------------------------------------------- monotone

  /** Objects keep their pid, and there may be more. */
  ghost predicate MoreObjects(a: seq<Proc>, b: seq<Proc>) {
    |a| <= |b| && forall i :: 0 <= i < |a| ==> b[i].pid == a[i].pid
  }

  lemma WorkersGrow(a: Seen, b: Seen, p: seq<Proc>, q: seq<Proc>, workers: seq<Worker>)
    requires Grows(a, b) && MoreObjects(p, q) && WorkersJustified(a, p, workers)
    ensures WorkersJustified(b, q, workers)
  {
  }

  lemma CreditsGrow(a: Seen, b: Seen, p: seq<Proc>, q: seq<Proc>, credits: seq<CreditRecord>)
    requires Grows(a, b) && MoreObjects(p, q) && CreditsJustified(a, p, credits)
    ensures CreditsJustified(b, q, credits)
  {
  }

  // -------------------------------------------------------------------- steps

  lemma SetWorkerJustified(s: State, w: nat, x: Worker)
    requires w < |s.flow.workers| && AllJustified(s) && WorkerJustified(SeenBy(s), s.tables.procs, x)
    ensures AllJustified(s.(flow := SetWorker(s.flow, w, x)))
  {
  }

  lemma LogOnly(s: State, r: State)
    requires AllJustified(s) && r.tables == s.tables && SeenBy(r) == SeenBy(s) && r.log.credits == s.log.credits
    requires r.flow.phase == s.flow.phase && r.flow.held == s.flow.held && r.flow.workers == s.flow.workers
    ensures AllJustified(r)
  {
  }

  lemma WorkJustified(s: State, w: nat)
    requires w < |s.flow.workers| && AllJustified(s)
    ensures AllJustified(WorkStep(s, w))
  {
    var x := s.flow.workers[w];
    assert WorkerJustified(SeenBy(s), s.tables.procs, x);
    SetWorkerJustified(s, w, Idle);
    if x.Holding? {
      if x.packet.tcp.Some? {
        SetWorkerJustified(s, w, Probing(JobOf(x.packet, x.packet.tcp.value, s.bindIPs), ByAddr));
      } else {
        LogOnly(s.(flow := SetWorker(s.flow, w, Idle)), WorkStep(s, w));
      }
    } else if x.Probing? {
      ProbingJustified(s, w, x.job, x.probe);
    } else if x.Stamped? {
      LogOnly(s.(flow := SetWorker(s.flow, w, Idle)), WorkStep(s, w));
    }
  }

  lemma ProbingJustified(s: State, w: nat, job: Job, probe: Probe)
    requires w < |s.flow.workers| && s.flow.workers[w] == Probing(job, probe) && AllJustified(s)
    requires ProbeJustified(SeenBy(s), s.tables.procs, job.addr, probe)
    ensures AllJustified(WorkStep(s, w))
  {
  }

  lemma RetryJustified(s: State)
    requires s.flow.phase.Handling? && s.flow.held.Some? && AllJustified(s)
    ensures AllJustified(RetryStep(s))
  {
  }

  lemma {:induction false} AddScannedMoreObjects(t: Tables, scan: Scan, order: seq<string>)
    requires forall i :: 0 <= i < |order| ==> order[i] in scan
    ensures MoreObjects(t.procs, AddScanned(t, scan, order).procs)
  {
    if order != [] {
      AddScannedMoreObjects(t, scan, order[..|order| - 1]);
    }
  }

  lemma ScanJustified(s: State, scan: Scan, addOrder: seq<string>, indexOrder: seq<string>)
    requires s.flow.phase.Rescanning? && IsOrder(addOrder, scan.Keys) && IsOrder(indexOrder, scan.Keys)
    requires AllJustified(s)
    ensures AllJustified(ScanStep(s, scan, addOrder, indexOrder))
  {
    var r := ScanStep(s, scan, addOrder, indexOrder);
    var a, b := SeenBy(s), SeenBy(r);
    RescannedMatches(s.tables, scan, addOrder, indexOrder);
    AddScannedMoreObjects(s.tables, scan, addOrder);
    WorkersGrow(a, b, s.tables.procs, r.tables.procs, s.flow.workers);
    CreditsGrow(a, b, s.tables.procs, r.tables.procs, s.log.credits);
    IndexScanned(scan, indexOrder, b.scanned);
  }

  lemma IndexScanned(scan: Scan, order: seq<string>, scanned: set<(string, string)>)
    requires IsOrder(order, scan.Keys) && ScannedPairs(scan) <= scanned
    ensures forall inode :: inode in BuildIndex(scan, order) ==> (BuildIndex(scan, order)[inode], inode) in scanned
  {
    forall inode | inode in BuildIndex(scan, order) ensures (BuildIndex(scan, order)[inode], inode) in scanned {
      IndexAgreesWithScan(scan, order, inode);
      assert (BuildIndex(scan, order)[inode], inode) in ScannedPairs(scan);
    }
  }

  lemma ListJustified(s: State)
    requires s.flow.phase.Rescanning? && s.flow.phase.todo != [] && AllJustified(s)
    ensures AllJustified(ListingStep(s))
  {
  }

  lemma BeginJustified(s: State, conns: seq<Netstat.ConnectionItem>)
    requires AllJustified(s)
    ensures AllJustified(BeginStep(s, conns))
  {
  }

  lemma StepJustified(s: State, a: Action)
    requires Enabled(s, a) && AllJustified(s)
    ensures AllJustified(Apply(s, a))
  {
    if a.Work? {
      WorkJustified(s, a.w);
    } else if a.HandleStep? {
      RetryJustified(s);
    } else if a.ScanProcesses? {
      ScanJustified(s, a.scan, a.addOrder, a.indexOrder);
    } else if a.ListStep? {
      ListJustified(s);
    } else if a.BeginRescan? {
      BeginJustified(s, a.conns);
    } else {
      OtherJustified(s, a);
    }
  }

  lemma CleanupJustified(s: State)
    requires AllJustified(s)
    ensures AllJustified(CleanupStep(s))
  {
  }

  lemma OtherJustified(s: State, a: Action)
    requires Enabled(s, a) && AllJustified(s)
    requires !a.Work? && !a.HandleStep? && !a.ScanProcesses? && !a.ListStep? && !a.BeginRescan?
    ensures AllJustified(Apply(s, a))
  {
    if a.Dequeue? {
      SetWorkerJustified(s, a.w, Holding(s.flow.packetQueue[0]));
    } else if a.Exit? {
      SetWorkerJustified(s, a.w, Exited);
    } else if a.Cleanup? {
      CleanupJustified(s);
    } else {
      SyncerJustified(s, a);
    }
  }

  lemma SyncerJustified(s: State, a: Action)
    requires Enabled(s, a) && AllJustified(s) && !a.Dequeue? && !a.Exit? && !a.Cleanup?
    requires !a.Work? && !a.HandleStep? && !a.ScanProcesses? && !a.ListStep? && !a.BeginRescan?
    ensures AllJustified(Apply(s, a))
  {
  }

  lemma {:induction false} RunJustified(s: State, actions: seq<Action>, r: State)
    requires Run(s, actions, r) && AllJustified(s)
    ensures AllJustified(r)
    decreases |actions|
  {
    if actions != [] {
      StepJustified(s, actions[0]);
      RunJustified(Apply(s, actions[0]), actions[1..], r);
    }
  }

  /** Whatever the interleaving of lookups, rescans, Cleanups and retries, every credit
      went to a process object whose pid some scan found holding an inode that some
      rescan listed under the key of the credited packet. */
  lemma AttributionSound(s: State, k: nat)
    requires Reachable(s) && k < |s.log.credits|
    ensures var r := s.log.credits[k];
            && r.obj < |s.tables.procs|
            && exists inode :: Wanted(r.job.addr, inode) in s.log.everListed
                               && (s.tables.procs[r.obj].pid, inode) in s.log.everScanned
  {
    var s0, actions :| IsInit(s0) && Run(s0, actions, s);
    RunJustified(s0, actions, s);
    assert CreditJustified(SeenBy(s), s.tables.procs, s.log.credits[k]);
  }
}
