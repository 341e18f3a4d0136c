/** The shared tables over whole runs: how old a connection entry can get, and why
    expiring entries does not make the drain misattribute. */
module PipelineTables {
  import opened Options
  import opened ConnectionMap
  import opened ProcessIndex
  import opened Pipeline
  import opened PipelineLedger

  // --------------------------------------------------------------- staleness

  /** Entries were added no earlier than one expiration before the last Cleanup, and
      no later than their key was last listed. */
  ghost predicate Aging(conns: map<string, Entry>, clock: int, lastCleanup: int, lastListed: map<string, int>) {
    && lastCleanup <= clock
    && forall k :: k in conns ==>
         && lastCleanup - EXPIRATION <= conns[k].timestamp <= clock
         && k in lastListed && conns[k].timestamp <= lastListed[k]
  }

  ghost predicate Ages(s: State) {
    Aging(s.tables.conns, s.clock, s.log.lastCleanup, s.log.lastListed)
  }

  /** What all steps other than listing, scanning and cleaning leave alone. */
  ghost predicate SameTables(s: State, r: State) {
    && r.tables.conns == s.tables.conns && r.tables.dict == s.tables.dict && r.tables.index == s.tables.index
    && SameObjects(s.tables.procs, r.tables.procs)
    && r.round == s.round && r.log.lastCleanup == s.log.lastCleanup && r.log.lastListed == s.log.lastListed
    && s.clock <= r.clock
  }

  ghost predicate SameObjects(a: seq<Proc>, b: seq<Proc>) {
    |a| == |b| && forall i :: 0 <= i < |a| ==> b[i].pid == a[i].pid && b[i].inodes == a[i].inodes
  }

  lemma WorkSameTables(s: State, w: nat)
    requires w < |s.flow.workers|
    ensures SameTables(s, WorkStep(s, w))
    ensures WorkStep(s, w).flow.phase == s.flow.phase && WorkStep(s, w).flow.held == s.flow.held
  {
  }

  lemma RetrySameTables(s: State)
    requires s.flow.phase.Handling? && s.flow.held.Some?
    ensures SameTables(s, RetryStep(s))
  {
  }

  predicate TouchesTables(a: Action) {
    a.BeginRescan? || a.ListStep? || a.ScanProcesses? || a.Cleanup?
  }

  lemma OtherSameTables(s: State, a: Action)
    requires Enabled(s, a) && !TouchesTables(a)
    ensures SameTables(s, Apply(s, a))
  {
    if a.Work? {
      WorkSameTables(s, a.w);
    } else if a.HandleStep? {
      RetrySameTables(s);
    }
  }

  lemma StepAges(s: State, a: Action)
    requires Enabled(s, a) && Ages(s)
    ensures Ages(Apply(s, a))
  {
    if a.ListStep? {
      ListAges(s);
    } else if !TouchesTables(a) {
      OtherSameTables(s, a);
    }
  }

  lemma ListAges(s: State)
    requires s.flow.phase.Rescanning? && s.flow.phase.todo != [] && Ages(s)
    ensures Ages(ListingStep(s))
  {
  }

  lemma {:induction false} RunAges(s: State, actions: seq<Action>, r: State)
    requires Run(s, actions, r) && Ages(s)
    ensures Ages(r)
    decreases |actions|
  {
    if actions != [] {
      StepAges(s, actions[0]);
      RunAges(Apply(s, actions[0]), actions[1..], r);
    }
  }

  /** If the last Cleanup is at most `period` ago, no entry is older than two minutes and
      the period, and a key not listed for longer than that is gone:
      listing a present entry again never renews it. */
  lemma StalenessBound(s: State, period: int, key: string)
    requires Reachable(s) && s.clock - s.log.lastCleanup <= period
    ensures key in s.tables.conns ==> s.clock - s.tables.conns[key].timestamp <= 120 * 1_000_000_000 + period
    ensures key in s.log.lastListed && s.clock - s.log.lastListed[key] > 120 * 1_000_000_000 + period ==>
              key !in s.tables.conns
    ensures key !in s.log.lastListed ==> key !in s.tables.conns
  {
    var s0, actions :| IsInit(s0) && Run(s0, actions, s);
    RunAges(s0, actions, s);
  }

  // --------------------------------------------------------- the inode index

  /** Every indexed pid names its own object. */
  ghost predicate OwnObjects(dict: map<string, nat>, procs: seq<Proc>) {
    forall pid :: pid in dict ==> dict[pid] < |procs| && procs[dict[pid]].pid == pid
  }

  /** The indexed objects are those of the scan, under the scanned inodes. */
  ghost predicate IndexMatches(t: Tables, scan: Scan, order: seq<string>) {
    && IsOrder(order, scan.Keys) && t.index == BuildIndex(scan, order)
    && (forall pid :: pid in t.dict <==> pid in scan)
    && forall pid :: pid in scan && pid in t.dict && t.dict[pid] < |t.procs| ==>
         t.procs[t.dict[pid]].inodes == scan[pid]
  }

  ghost predicate Indexes(s: State) {
    && OwnObjects(s.tables.dict, s.tables.procs)
    && (s.round.scan.Some? ==> IndexMatches(s.tables, s.round.scan.value, s.round.order))
  }

  /** Survivors keep their object, visited pids get the scanned inodes. */
  ghost predicate Extends(t: Tables, u: Tables, scan: Scan, order: seq<string>)
    requires forall i :: 0 <= i < |order| ==> order[i] in scan
  {
    && OwnObjects(u.dict, u.procs)
    && (forall pid :: pid in t.dict ==> pid in u.dict && u.dict[pid] == t.dict[pid])
    && (forall pid :: pid in u.dict ==> pid in t.dict || pid in order)
    && Visited(u, scan, order)
  }

  ghost predicate Visited(u: Tables, scan: Scan, order: seq<string>)
    requires forall i :: 0 <= i < |order| ==> order[i] in scan
  {
    forall i :: 0 <= i < |order| ==>
      order[i] in u.dict && u.dict[order[i]] < |u.procs| && u.procs[u.dict[order[i]]].inodes == scan[order[i]]
  }

  lemma {:induction false} AddScannedExtends(t: Tables, scan: Scan, order: seq<string>)
    requires OwnObjects(t.dict, t.procs) && forall i :: 0 <= i < |order| ==> order[i] in scan
    ensures Extends(t, AddScanned(t, scan, order), scan, order)
  {
    if order != [] {
      var p, pid := order[..|order| - 1], order[|order| - 1];
      AddScannedExtends(t, scan, p);
      assert order == p + [pid];
      AddOneExtends(t, AddScanned(t, scan, p), scan, p, pid);
    }
  }

  lemma AddOneExtends(t: Tables, u: Tables, scan: Scan, p: seq<string>, pid: string)
    requires pid in scan && forall i :: 0 <= i < |p| ==> p[i] in scan
    requires Extends(t, u, scan, p)
    ensures forall i :: 0 <= i < |p + [pid]| ==> (p + [pid])[i] in scan
    ensures Extends(t, AddOne(u, pid, scan[pid]), scan, p + [pid])
  {
    var v := AddOne(u, pid, scan[pid]);
    AddOneOwn(u, pid, scan[pid]);
    assert pid in p + [pid] && forall q :: q in p ==> q in p + [pid];
    AddOneVisited(u, scan, p, pid);
  }

  lemma AddOneOwn(u: Tables, pid: string, inodes: seq<string>)
    requires OwnObjects(u.dict, u.procs)
    ensures var v := AddOne(u, pid, inodes);
            && OwnObjects(v.dict, v.procs)
            && (forall q :: q in u.dict ==> q in v.dict && v.dict[q] == u.dict[q])
            && (forall q :: q in v.dict ==> q in u.dict || q == pid)
  {
  }

  lemma AddOneVisited(u: Tables, scan: Scan, p: seq<string>, pid: string)
    requires pid in scan && forall i :: 0 <= i < |p| ==> p[i] in scan
    requires OwnObjects(u.dict, u.procs) && Visited(u, scan, p)
    ensures forall i :: 0 <= i < |p + [pid]| ==> (p + [pid])[i] in scan
    ensures Visited(AddOne(u, pid, scan[pid]), scan, p + [pid])
  {
  }

  /** Old objects keep their pid and ring; a pid not indexed before gets a new object
      that nothing was credited to. */
  ghost predicate NewOnesFresh(t: Tables, u: Tables) {
    && |t.procs| <= |u.procs|
    && (forall i :: 0 <= i < |t.procs| ==> u.procs[i].pid == t.procs[i].pid && u.procs[i].ring == t.procs[i].ring)
    && (forall i :: |t.procs| <= i < |u.procs| ==> u.procs[i].ring == [])
    && forall pid :: pid in u.dict && pid !in t.dict ==> |t.procs| <= u.dict[pid] < |u.procs|
  }

  lemma {:induction false} AddScannedFresh(t: Tables, scan: Scan, order: seq<string>)
    requires OwnObjects(t.dict, t.procs) && forall i :: 0 <= i < |order| ==> order[i] in scan
    ensures NewOnesFresh(t, AddScanned(t, scan, order))
  {
    if order != [] {
      AddScannedFresh(t, scan, order[..|order| - 1]);
    }
  }

  lemma RescannedMatches(t: Tables, scan: Scan, addOrder: seq<string>, indexOrder: seq<string>)
    requires OwnObjects(t.dict, t.procs) && IsOrder(addOrder, scan.Keys) && IsOrder(indexOrder, scan.Keys)
    ensures var r := Rescanned(t, scan, addOrder, indexOrder);
            && OwnObjects(r.dict, r.procs) && IndexMatches(r, scan, indexOrder)
            && (forall pid :: pid in t.dict && pid in scan ==> r.dict[pid] == t.dict[pid])
            && NewOnesFresh(t, r)
  {
    AddScannedExtends(t, scan, addOrder);
    AddScannedFresh(t, scan, addOrder);
    var u, r := AddScanned(t, scan, addOrder), Rescanned(t, scan, addOrder, indexOrder);
    forall pid | pid in scan ensures pid in r.dict && r.procs[r.dict[pid]].inodes == scan[pid] {
      var i :| 0 <= i < |addOrder| && addOrder[i] == pid;
      assert Visited(u, scan, addOrder);
    }
  }

  lemma IndexesSame(s: State, r: State)
    requires Indexes(s) && SameTables(s, r)
    ensures Indexes(r)
  {
  }

  lemma StepIndexes(s: State, a: Action)
    requires Enabled(s, a) && Indexes(s)
    ensures Indexes(Apply(s, a))
  {
    if a.ScanProcesses? {
      RescannedMatches(s.tables, a.scan, a.addOrder, a.indexOrder);
    } else if !TouchesTables(a) {
      OtherSameTables(s, a);
      IndexesSame(s, Apply(s, a));
    } else if a.ListStep? {
      ListIndexes(s);
    }
  }

  lemma ListIndexes(s: State)
    requires s.flow.phase.Rescanning? && s.flow.phase.todo != [] && Indexes(s)
    ensures Indexes(ListingStep(s))
  {
  }

  // ------------------------------------------------ the connection table

  /** No two listed connections give the key different inodes. */
  ghost predicate AgreesOn(listed: seq<Wanted>, key: string) {
    forall i, j :: 0 <= i < |listed| && 0 <= j < |listed| && listed[i].key == key == listed[j].key ==>
      listed[i].inode == listed[j].inode
  }

  /** What rescanConns has still to go through. */
  function Todo(phase: Phase): seq<Wanted> {
    if phase.Rescanning? then phase.todo else []
  }

  /** The keys lost are absent, and every other unambiguous key among the first n listed
      is present. */
  ghost predicate PresentOrLost(conns: map<string, Entry>, listed: seq<Wanted>, n: nat, lost: set<string>)
    requires n <= |listed|
  {
    && (forall k :: k in lost ==> k !in conns)
    && forall i :: 0 <= i < n && listed[i].key !in lost && AgreesOn(listed, listed[i].key) ==>
         Exists(conns, listed[i].key, listed[i].inode)
  }

  /** What rescanConns has gone through is in the table until a Cleanup finds it expired. */
  ghost predicate ListedSoFar(listed: seq<Wanted>, todo: seq<Wanted>, lost: set<string>, conns: map<string, Entry>) {
    && |todo| <= |listed| && todo == listed[|listed| - |todo|..]
    && PresentOrLost(conns, listed, |listed| - |todo|, lost)
  }

  ghost predicate Lists(s: State) {
    ListedSoFar(s.round.listed, Todo(s.flow.phase), s.round.lost, s.tables.conns)
  }

  lemma SuffixStep(listed: seq<Wanted>, todo: seq<Wanted>)
    requires todo != [] && |todo| <= |listed| && todo == listed[|listed| - |todo|..]
    ensures todo[0] == listed[|listed| - |todo|] && todo[1..] == listed[|listed| - (|todo| - 1)..]
  {
  }

  lemma SkipListed(listed: seq<Wanted>, todo: seq<Wanted>, lost: set<string>, conns: map<string, Entry>)
    requires ListedSoFar(listed, todo, lost, conns) && todo != [] && Exists(conns, todo[0].key, todo[0].inode)
    ensures ListedSoFar(listed, todo[1..], lost, conns)
  {
    SuffixStep(listed, todo);
  }

  lemma AddListed(listed: seq<Wanted>, todo: seq<Wanted>, lost: set<string>, conns: map<string, Entry>, at: int)
    requires ListedSoFar(listed, todo, lost, conns) && todo != []
    ensures ListedSoFar(listed, todo[1..], lost - {todo[0].key}, conns[todo[0].key := Entry(todo[0].inode, at)])
  {
    SuffixStep(listed, todo);
    var x, n := todo[0], |listed| - |todo|;
    var present := conns[x.key := Entry(x.inode, at)];
    forall i | 0 <= i <= n && listed[i].key !in lost - {x.key} && AgreesOn(listed, listed[i].key)
      ensures Exists(present, listed[i].key, listed[i].inode)
    {
      assert listed[n] == x;
    }
  }

  lemma LoseListed(listed: seq<Wanted>, todo: seq<Wanted>, lost: set<string>, conns: map<string, Entry>, now: int)
    requires ListedSoFar(listed, todo, lost, conns)
    ensures var kept := Kept(conns, now, EXPIRATION); ListedSoFar(listed, todo, lost + (conns.Keys - kept.Keys), kept)
  {
  }

  lemma ListLists(s: State)
    requires s.flow.phase.Rescanning? && s.flow.phase.todo != [] && Lists(s)
    ensures Lists(ListingStep(s))
  {
    var ph := s.flow.phase;
    if ph.mustAdd {
      AddListed(s.round.listed, ph.todo, s.round.lost, s.tables.conns, s.clock);
    } else if Exists(s.tables.conns, ph.todo[0].key, ph.todo[0].inode) {
      SkipListed(s.round.listed, ph.todo, s.round.lost, s.tables.conns);
    }
  }

  lemma StepLists(s: State, a: Action)
    requires Enabled(s, a) && Lists(s)
    ensures Lists(Apply(s, a))
  {
    if a.ListStep? {
      ListLists(s);
    } else if a.Cleanup? {
      LoseListed(s.round.listed, Todo(s.flow.phase), s.round.lost, s.tables.conns, s.clock);
    } else if !TouchesTables(a) {
      OtherSameTables(s, a);
      TodoSame(s, a);
    }
  }

  lemma TodoSame(s: State, a: Action)
    requires Enabled(s, a) && !TouchesTables(a)
    ensures Todo(Apply(s, a).flow.phase) == Todo(s.flow.phase)
  {
  }

  // ---------------------------------------------- the drain attributes rightly

  /** The list names the key with this inode and with no other. */
  ghost predicate ListedUnder(s: State, key: string, inode: string) {
    Wanted(key, inode) in s.round.listed && AgreesOn(s.round.listed, key) && inode != ""
  }

  ghost predicate ScannedInode(s: State, inode: string) {
    s.round.scan.Some? && exists pid :: pid in s.round.scan.value && inode in s.round.scan.value[pid]
  }

  /** The key is listed under the inode, no Cleanup since has found its entry expired,
      and some scanned process holds the inode. */
  ghost predicate Attributable(s: State, key: string, inode: string) {
    key !in s.round.lost && ListedUnder(s, key, inode) && ScannedInode(s, inode)
  }

  ghost predicate ProbeRight(t: Tables, probe: Probe, inode: string) {
    match probe
    case ByAddr => true
    case ByInode(i) => i == inode
    case Found(obj) => inode in t.index && t.index[inode] in t.dict && obj == t.dict[t.index[inode]]
    case Missing => false
  }

  /** While the syncer handles an attributable entry its lookup is on course. */
  ghost predicate OnCourse(s: State) {
    s.flow.phase.Handling? && s.flow.held.Some? ==>
      forall inode :: Attributable(s, s.flow.held.value.job.addr, inode) ==>
        ProbeRight(s.tables, s.flow.phase.probe, inode)
  }

  /** After a rescan a key listed under one inode is in the table under it, unless lost. */
  lemma ListedIsPresentOrLost(s: State, key: string, inode: string)
    requires Lists(s) && Todo(s.flow.phase) == [] && ListedUnder(s, key, inode)
    ensures Value(s.tables.conns, key) == if key in s.round.lost then "" else inode
  {
    var listed := s.round.listed;
    var i :| 0 <= i < |listed| && listed[i] == Wanted(key, inode);
    assert listed[i].key !in s.round.lost ==> Exists(s.tables.conns, listed[i].key, listed[i].inode);
  }

  lemma ProbedRight(s: State, key: string, inode: string, probe: Probe)
    requires Lists(s) && Indexes(s) && Todo(s.flow.phase) == []
    requires Attributable(s, key, inode) && ProbeRight(s.tables, probe, inode)
    ensures ProbeRight(s.tables, Probed(s.tables, key, probe), inode)
  {
    var scan, order := s.round.scan.value, s.round.order;
    ListedIsPresentOrLost(s, key, inode);
    assert IndexMatches(s.tables, scan, order);
    IndexAgreesWithScan(scan, order, inode);
  }

  lemma CourseSame(s: State, r: State)
    requires OnCourse(s) && SameTables(s, r)
    requires r.flow.phase == s.flow.phase && r.flow.held == s.flow.held
    ensures OnCourse(r)
  {
    if r.flow.phase.Handling? && r.flow.held.Some? {
      var key := s.flow.held.value.job.addr;
      forall inode | Attributable(r, key, inode) ensures ProbeRight(r.tables, r.flow.phase.probe, inode) {
        assert Attributable(s, key, inode);
      }
    }
  }

  lemma RetryOnCourse(s: State)
    requires s.flow.phase.Handling? && s.flow.held.Some? && Lists(s) && Indexes(s) && OnCourse(s) && InRange(s)
    ensures OnCourse(RetryStep(s))
  {
    if !s.flow.phase.probe.Found? && !s.flow.phase.probe.Missing? {
      var key, probe := s.flow.held.value.job.addr, s.flow.phase.probe;
      assert RetryStep(s) == RetryLookUp(s);
      forall inode | Attributable(s, key, inode) ensures ProbeRight(s.tables, Probed(s.tables, key, probe), inode) {
        ProbedRight(s, key, inode, probe);
      }
      LookUpOnCourse(s);
    }
  }

  lemma LookUpOnCourse(s: State)
    requires s.flow.phase.Handling? && s.flow.held.Some?
    requires forall inode :: Attributable(s, s.flow.held.value.job.addr, inode) ==>
               ProbeRight(s.tables, Probed(s.tables, s.flow.held.value.job.addr, s.flow.phase.probe), inode)
    ensures OnCourse(RetryLookUp(s))
  {
  }

  /** Steps that leave the syncer's phase and held entry alone. */
  predicate Aside(a: Action) {
    a.Tick? || a.Arrive? || a.Forward? || a.Enqueue? || a.Dequeue? || a.Exit? || a.Work? || a.Cancel?
  }

  lemma AsideSame(s: State, a: Action)
    requires Enabled(s, a) && Aside(a)
    ensures Apply(s, a).flow.phase == s.flow.phase && Apply(s, a).flow.held == s.flow.held
  {
  }

  lemma StepOnCourse(s: State, a: Action)
    requires Enabled(s, a) && Lists(s) && Indexes(s) && OnCourse(s) && InRange(s)
    ensures OnCourse(Apply(s, a))
  {
    if a.HandleStep? {
      RetryOnCourse(s);
    } else if Aside(a) {
      OtherSameTables(s, a);
      AsideSame(s, a);
      CourseSame(s, Apply(s, a));
    } else {
      PhaseOnCourse(s, a);
    }
  }

  lemma PhaseOnCourse(s: State, a: Action)
    requires Enabled(s, a) && OnCourse(s) && !a.HandleStep? && !Aside(a)
    ensures OnCourse(Apply(s, a))
  {
    if a.Cleanup? {
      CleanupOnCourse(s);
    }
  }

  /** Whatever a Cleanup leaves attributable was attributable before. */
  lemma CleanupOnCourse(s: State)
    requires OnCourse(s)
    ensures OnCourse(CleanupStep(s))
  {
    var r := CleanupStep(s);
    if s.flow.phase.Handling? && s.flow.held.Some? {
      var key := s.flow.held.value.job.addr;
      forall inode | Attributable(r, key, inode) ensures ProbeRight(r.tables, r.flow.phase.probe, inode) {
        assert Attributable(s, key, inode);
      }
    }
  }

  lemma {:induction false} RunCourse(s: State, actions: seq<Action>, r: State)
    requires Run(s, actions, r) && Lists(s) && Indexes(s) && OnCourse(s) && InRange(s)
    ensures Lists(r) && Indexes(r) && OnCourse(r) && InRange(r)
    decreases |actions|
  {
    if actions != [] {
      StepInRange(s, actions[0]);
      StepLists(s, actions[0]);
      StepIndexes(s, actions[0]);
      StepOnCourse(s, actions[0]);
      RunCourse(Apply(s, actions[0]), actions[1..], r);
    }
  }

  lemma ReachableCourse(s: State)
    requires Reachable(s)
    ensures Lists(s) && Indexes(s) && OnCourse(s) && InRange(s)
  {
    var s0, actions :| IsInit(s0) && Run(s0, actions, s);
    RunCourse(s0, actions, s);
  }

  /** The object is indexed under its own pid and owns the inode. */
  ghost predicate Owns(t: Tables, obj: nat, inode: string) {
    obj < |t.procs| && inode in t.procs[obj].inodes && t.procs[obj].pid in t.dict && t.dict[t.procs[obj].pid] == obj
  }

  lemma FoundOwns(s: State, inode: string)
    requires Indexes(s) && s.round.scan.Some?
    requires inode in s.tables.index && s.tables.index[inode] in s.tables.dict
    ensures Owns(s.tables, s.tables.dict[s.tables.index[inode]], inode)
  {
    var scan, order := s.round.scan.value, s.round.order;
    assert IndexMatches(s.tables, scan, order);
    IndexAgreesWithScan(scan, order, inode);
  }

  /** When the drain looks up the key of a held entry, listed under one inode, it finds
      the inode exactly when no Cleanup has found the key's entry expired since its listing. */
  lemma LookUpFindsUnlessLost(s: State, inode: string)
    requires Reachable(s) && Enabled(s, HandleStep) && s.flow.phase.probe == ByAddr
    requires ListedUnder(s, s.flow.held.value.job.addr, inode)
    ensures Apply(s, HandleStep).flow.phase.probe ==
              if s.flow.held.value.job.addr in s.round.lost then Missing else ByInode(inode)
  {
    ReachableCourse(s);
    ListedIsPresentOrLost(s, s.flow.held.value.job.addr, inode);
  }

  /** Whatever earlier Cleanups removed, and whenever they ran: provided none has found
      the key's entry expired since this round's rescan listed it, and no two listed
      connections give the key different inodes, the step that finishes a held entry of a
      listed connection with a scanned inode credits it to a process owning the inode. */
  lemma CleanupTransparent(s: State, inode: string)
    requires Reachable(s) && Enabled(s, HandleStep)
    requires Attributable(s, s.flow.held.value.job.addr, inode)
    requires s.flow.phase.probe.Found? || s.flow.phase.probe.Missing?
    ensures var r := Apply(s, HandleStep); var e := s.flow.held.value;
            exists obj: nat ::
              && r.log.retries == s.log.retries + [Retry(e, s.flow.phase.lastTime, Some(obj))]
              && r.log.credits == s.log.credits + [CreditRecord(e.job, obj, s.clock / SECOND)]
              && Owns(r.tables, obj, inode)
  {
    ReachableCourse(s);
    assert ProbeRight(s.tables, s.flow.phase.probe, inode);
    FoundOwns(s, inode);
    var obj := s.flow.phase.probe.obj;
    var r := Apply(s, HandleStep);
    assert r.log.retries == s.log.retries + [Retry(s.flow.held.value, s.flow.phase.lastTime, Some(obj))];
    RetrySameTables(s);
    assert Owns(r.tables, obj, inode);
  }
}
