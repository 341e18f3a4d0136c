/** What becomes of one packet, and of one delayed entry, while everybody else goes on:
    a lookup is two steps, the connection table and then the process index, and rescans,
    Cleanups and other workers may fall between them. */
module PipelineWorkers {
  import opened Options
  import opened Netstat
  import opened Pipeline
  import opened PipelineDelay
  import opened PipelineLedger
  import opened PipelineCredits

  // ------------------------------------------------------------ what is looked up

  /** The connection table has this inode under the key. */
  ghost predicate InodeOf(t: Tables, key: string, inode: string) {
    key in t.conns && t.conns[key].value == inode && inode != ""
  }

  ghost predicate NoInode(t: Tables, key: string) {
    key !in t.conns || t.conns[key].value == ""
  }

  /** The index names a live process for the inode, which is this object. */
  ghost predicate LiveOwner(t: Tables, inode: string, obj: nat) {
    inode in t.index && t.index[inode] in t.dict && t.dict[t.index[inode]] == obj
  }

  ghost predicate NoOwner(t: Tables, inode: string) {
    inode !in t.index || t.index[inode] !in t.dict
  }

  /** The two steps of getProcessByAddr, over the tables as they are at each. */
  lemma ProbedMeaning(t: Tables, key: string, inode: string, obj: nat)
    ensures InodeOf(t, key, inode) <==> Probed(t, key, ByAddr) == ByInode(inode)
    ensures NoInode(t, key) <==> Probed(t, key, ByAddr) == Missing
    ensures LiveOwner(t, inode, obj) <==> Probed(t, key, ByInode(inode)) == Found(obj)
    ensures NoOwner(t, inode) <==> Probed(t, key, ByInode(inode)) == Missing
  {
  }

  // --------------------------------------------------------------------- turns

  predicate IsStepOf(a: Action, w: nat) {
    (a.Dequeue? || a.Exit? || a.Work?) && a.w == w
  }

  /** Any interleaving of everybody but worker w. */
  ghost predicate OthersRun(s: State, w: nat, actions: seq<Action>, r: State) {
    Run(s, actions, r) && forall i :: 0 <= i < |actions| ==> !IsStepOf(actions[i], w)
  }

  /** Worker w takes its next step in s; then the others run until r. */
  ghost predicate Turn(s: State, w: nat, r: State) {
    Enabled(s, Work(w)) && exists actions :: OthersRun(Apply(s, Work(w)), w, actions, r)
  }

  lemma OtherStep(s: State, w: nat, a: Action)
    requires Enabled(s, a) && w < |s.flow.workers| && !IsStepOf(a, w)
    ensures |Apply(s, a).flow.workers| == |s.flow.workers| && Apply(s, a).flow.workers[w] == s.flow.workers[w]
  {
    if a.Work? {
      OtherWork(s, w, a.w);
    }
  }

  lemma OtherWork(s: State, w: nat, v: nat)
    requires w < |s.flow.workers| && v < |s.flow.workers| && v != w
    ensures |WorkStep(s, v).flow.workers| == |s.flow.workers| && WorkStep(s, v).flow.workers[w] == s.flow.workers[w]
  {
  }

  lemma {:induction false} OthersLeave(s: State, w: nat, actions: seq<Action>, r: State)
    requires OthersRun(s, w, actions, r) && w < |s.flow.workers|
    ensures |r.flow.workers| == |s.flow.workers| && r.flow.workers[w] == s.flow.workers[w]
    decreases |actions|
  {
    if actions != [] {
      OtherStep(s, w, actions[0]);
      OthersLeave(Apply(s, actions[0]), w, actions[1..], r);
    }
  }

  lemma StepThenRun(s: State, a: Action, actions: seq<Action>, r: State)
    requires Reachable(s) && Enabled(s, a) && Run(Apply(s, a), actions, r)
    ensures Reachable(r)
  {
    var s0, before :| IsInit(s0) && Run(s0, before, s);
    RunSnoc(s0, before, s, a);
    RunTwice(s0, before + [a], Apply(s, a), actions, r);
  }

  /** Only worker w itself moves on its packet. */
  lemma TurnKeeps(s: State, w: nat, r: State)
    requires Reachable(s) && Turn(s, w, r)
    ensures Reachable(r) && w < |r.flow.workers| && r.flow.workers[w] == Apply(s, Work(w)).flow.workers[w]
  {
    var actions :| OthersRun(Apply(s, Work(w)), w, actions, r);
    StepThenRun(s, Work(w), actions, r);
    WorkersStay(s, w);
    OthersLeave(Apply(s, Work(w)), w, actions, r);
  }

  lemma WorkersStay(s: State, w: nat)
    requires w < |s.flow.workers|
    ensures |WorkStep(s, w).flow.workers| == |s.flow.workers|
  {
  }

  // ------------------------------------------------------------------- workers

  /** A job made of this packet, as handlePacket makes it. */
  ghost predicate IsJobOf(job: Job, p: Packet, bindIPs: set<string>) {
    job.packet == p && Faithful(job, bindIPs)
  }

  /** A packet with both layers is looked up by its own key. */
  lemma StartsLookUp(s0: State, s1: State, w: nat, p: Packet)
    requires Reachable(s0) && Turn(s0, w, s1) && s0.flow.workers[w] == Holding(p) && p.tcp.Some?
    ensures Reachable(s1) && w < |s1.flow.workers|
    ensures s1.flow.workers[w] == Probing(JobOf(p, p.tcp.value, s0.bindIPs), ByAddr)
  {
    TurnKeeps(s0, w, s1);
  }

  lemma LooksUp(s: State, r: State, w: nat, job: Job, probe: Probe)
    requires Reachable(s) && Turn(s, w, r) && s.flow.workers[w] == Probing(job, probe)
    requires probe.ByAddr? || probe.ByInode?
    ensures Reachable(r) && w < |r.flow.workers|
    ensures r.flow.workers[w] == Probing(job, Probed(s.tables, job.addr, probe))
  {
    TurnKeeps(s, w, r);
  }

  /** The four states in which worker w takes its steps on packet p, the last being where
      its lookup has ended if it found an inode. */
  ghost predicate Handles(s0: State, s1: State, s2: State, s3: State, w: nat, p: Packet) {
    && Reachable(s0) && w < |s0.flow.workers| && s0.flow.workers[w] == Holding(p) && p.tcp.Some?
    && Turn(s0, w, s1) && Turn(s1, w, s2) && Turn(s2, w, s3)
  }

  /** Where the worker's lookup stands. */
  ghost predicate ProbeIs(s: State, w: nat, p: Packet, probe: Probe) {
    w < |s.flow.workers| && s.flow.workers[w].Probing? && s.flow.workers[w].job.packet == p
    && s.flow.workers[w].probe == probe
  }

  /** A worker's lookup misses at its first step exactly when the connection table then has
      no inode for the packet's key, and, having one, at its second exactly when the index
      then names no live process for it.  Otherwise it finds that process. */
  lemma WorkerLookUp(s0: State, s1: State, s2: State, s3: State, w: nat, p: Packet, inode: string, obj: nat)
    requires Handles(s0, s1, s2, s3, w, p)
    ensures var key := SpliceAddr(p.tcp.value.ends);
            && (ProbeIs(s2, w, p, Missing) <==> NoInode(s1.tables, key))
            && (ProbeIs(s2, w, p, ByInode(inode)) <==> InodeOf(s1.tables, key, inode))
            && (InodeOf(s1.tables, key, inode) ==>
                  && (ProbeIs(s3, w, p, Missing) <==> NoOwner(s2.tables, inode))
                  && (ProbeIs(s3, w, p, Found(obj)) <==> LiveOwner(s2.tables, inode, obj)))
  {
    var job := JobOf(p, p.tcp.value, s0.bindIPs);
    StartsLookUp(s0, s1, w, p);
    LooksUp(s1, s2, w, job, ByAddr);
    ProbedMeaning(s1.tables, job.addr, inode, obj);
    ProbedMeaning(s2.tables, job.addr, inode, obj);
    if InodeOf(s1.tables, job.addr, inode) {
      LooksUp(s2, s3, w, job, ByInode(inode));
    }
  }

  /** The packet's job was credited to the object at the second the clock shows, and
      nothing was delayed. */
  ghost predicate CreditedNow(s: State, r: State, p: Packet, obj: nat) {
    && r.log.pushed == s.log.pushed && r.log.overflow == s.log.overflow && r.flow.delayQueue == s.flow.delayQueue
    && |r.log.credits| == |s.log.credits| + 1 && r.log.credits[..|s.log.credits|] == s.log.credits
    && r.log.credits[|s.log.credits|].obj == obj
    && r.log.credits[|s.log.credits|].at == s.clock / 1_000_000_000
    && IsJobOf(r.log.credits[|s.log.credits|].job, p, s.bindIPs)
  }

  /** A packet whose key the table and the index know is credited to that process by the
      worker's next step, and is not delayed. */
  lemma WorkerCredits(s0: State, s1: State, s2: State, s3: State, w: nat, p: Packet, inode: string, obj: nat)
    requires Handles(s0, s1, s2, s3, w, p)
    requires InodeOf(s1.tables, SpliceAddr(p.tcp.value.ends), inode) && LiveOwner(s2.tables, inode, obj)
    ensures Enabled(s3, Work(w)) && obj < |s3.tables.procs|
    ensures CreditedNow(s3, Apply(s3, Work(w)), p, obj) && Apply(s3, Work(w)).flow.workers[w] == Idle
  {
    WorkerLookUp(s0, s1, s2, s3, w, p, inode, obj);
    TurnKeeps(s0, w, s1);
    TurnKeeps(s1, w, s2);
    TurnKeeps(s2, w, s3);
    FoundCredits(s3, w, s3.flow.workers[w].job, obj);
  }

  lemma FoundCredits(s: State, w: nat, job: Job, obj: nat)
    requires Reachable(s) && w < |s.flow.workers| && s.flow.workers[w] == Probing(job, Found(obj))
    ensures obj < |s.tables.procs|
    ensures CreditedNow(s, WorkStep(s, w), job.packet, obj) && WorkStep(s, w).flow.workers[w] == Idle
  {
    ReachableInRange(s);
    assert ProbeInRange(s.flow.workers[w], |s.tables.procs|);
    JobsStayFaithful(s);
    HandIsFaithful(s, w, job);
    CreditAppended(s, w, job, obj);
  }

  lemma HandIsFaithful(s: State, w: nat, job: Job)
    requires AllJobs(s, j => Faithful(j, s.bindIPs)) && w < |s.flow.workers|
    requires s.flow.workers[w].Probing? && s.flow.workers[w].job == job
    ensures Faithful(job, s.bindIPs)
  {
    assert WorkerJob(s.flow.workers[w], j => Faithful(j, s.bindIPs));
  }

  lemma CreditAppended(s: State, w: nat, job: Job, obj: nat)
    requires w < |s.flow.workers| && s.flow.workers[w] == Probing(job, Found(obj)) && obj < |s.tables.procs|
    ensures var r := WorkStep(s, w);
            && r.log.credits == s.log.credits + [CreditRecord(job, obj, s.clock / 1_000_000_000)]
            && r.log.pushed == s.log.pushed && r.log.overflow == s.log.overflow
            && r.flow.delayQueue == s.flow.delayQueue && r.flow.workers[w] == Idle
  {
  }

  /** The entry waits for the next drain, or is lost because the queue is full. */
  ghost predicate DelayedNow(s: State, r: State, e: DelayEntry) {
    && r.log.credits == s.log.credits && r.tables == s.tables
    && if |s.flow.delayQueue| < 2_000_000
       then r.flow.delayQueue == s.flow.delayQueue + [e] && r.log.pushed == s.log.pushed + [e]
            && r.log.overflow == s.log.overflow
       else r.flow.delayQueue == s.flow.delayQueue && r.log.pushed == s.log.pushed
            && r.log.overflow == s.log.overflow + [e]
  }

  /** A packet that missed is stamped with the time of that step and pushed by the next,
      if there is room; nothing is credited. */
  lemma MissIsDelayed(s: State, r: State, w: nat, p: Packet)
    requires Reachable(s) && Turn(s, w, r) && ProbeIs(s, w, p, Missing)
    ensures Apply(s, Work(w)).log == s.log && Apply(s, Work(w)).tables == s.tables
    ensures w < |r.flow.workers| && r.flow.workers[w] == Stamped(DelayEntry(s.clock, s.flow.workers[w].job, w))
    ensures DelayedNow(r, Apply(r, Work(w)), DelayEntry(s.clock, s.flow.workers[w].job, w))
    ensures Apply(r, Work(w)).flow.workers[w] == Idle
  {
    TurnKeeps(s, w, r);
    PushDelays(r, w, r.flow.workers[w].entry);
  }

  lemma PushDelays(s: State, w: nat, e: DelayEntry)
    requires w < |s.flow.workers|
    ensures DelayedNow(s, PushStep(s, w, e), e) && PushStep(s, w, e).flow.workers[w] == Idle
  {
  }

  // -------------------------------------------------------------------- retries

  /** The syncer takes its next step on the held entry in s; then everybody else runs. */
  ghost predicate RetryTurn(s: State, r: State) {
    Enabled(s, HandleStep) && exists actions :: Run(Apply(s, HandleStep), actions, r) && HandleStep !in actions
  }

  lemma {:induction false} OthersLeaveHeld(s: State, actions: seq<Action>, r: State)
    requires Run(s, actions, r) && HandleStep !in actions && s.flow.phase.Handling? && s.flow.held.Some?
    ensures r.flow.phase == s.flow.phase && r.flow.held == s.flow.held
    decreases |actions|
  {
    if actions != [] {
      OtherLeavesHeld(s, actions[0]);
      OthersLeaveHeld(Apply(s, actions[0]), actions[1..], r);
    }
  }

  lemma OtherLeavesHeld(s: State, a: Action)
    requires Enabled(s, a) && a != HandleStep && s.flow.phase.Handling? && s.flow.held.Some?
    ensures Apply(s, a).flow.phase == s.flow.phase && Apply(s, a).flow.held == s.flow.held
  {
  }

  lemma RetryLooksUp(s: State, r: State)
    requires Reachable(s) && RetryTurn(s, r) && (s.flow.phase.probe.ByAddr? || s.flow.phase.probe.ByInode?)
    ensures Reachable(r) && r.flow.held == s.flow.held
    ensures r.flow.phase ==
            Handling(s.flow.phase.lastTime, Probed(s.tables, s.flow.held.value.job.addr, s.flow.phase.probe))
  {
    var actions :| Run(Apply(s, HandleStep), actions, r) && HandleStep !in actions;
    StepThenRun(s, HandleStep, actions, r);
    OthersLeaveHeld(Apply(s, HandleStep), actions, r);
  }

  /** The syncer is done with the entry: credited to an object at the present second, or
      discarded. */
  ghost predicate RetriedAs(s: State, r: State, e: DelayEntry, t: int, outcome: Option<nat>) {
    && r.log.retries == s.log.retries + [Retry(e, t, outcome)] && r.flow.held == None && r.flow.phase == Draining(t)
    && r.log.pushed == s.log.pushed && r.flow.delayQueue == s.flow.delayQueue
    && r.log.credits == s.log.credits +
         if outcome.Some? then [CreditRecord(e.job, outcome.value, s.clock / 1_000_000_000)] else []
  }

  /** A retry credits the entry exactly when the table has an inode for its key at the first
      step and the index names a live process for that inode at the second; otherwise the
      entry is discarded. */
  lemma RetryOutcome(s1: State, s2: State, s3: State, e: DelayEntry, t: int, inode: string, obj: nat)
    requires Reachable(s1) && s1.flow.phase == Handling(t, ByAddr) && s1.flow.held == Some(e) && RetryTurn(s1, s2)
    ensures NoInode(s1.tables, e.job.addr) ==>
              Enabled(s2, HandleStep) && RetriedAs(s2, Apply(s2, HandleStep), e, t, None)
    ensures InodeOf(s1.tables, e.job.addr, inode) && RetryTurn(s2, s3) && NoOwner(s2.tables, inode) ==>
              Enabled(s3, HandleStep) && RetriedAs(s3, Apply(s3, HandleStep), e, t, None)
    ensures InodeOf(s1.tables, e.job.addr, inode) && RetryTurn(s2, s3) && LiveOwner(s2.tables, inode, obj) ==>
              Enabled(s3, HandleStep) && RetriedAs(s3, Apply(s3, HandleStep), e, t, Some(obj))
  {
    RetryLooksUp(s1, s2);
    ProbedMeaning(s1.tables, e.job.addr, inode, obj);
    ProbedMeaning(s2.tables, e.job.addr, inode, obj);
    if NoInode(s1.tables, e.job.addr) {
      RetryEnds(s2, e, t);
    } else if InodeOf(s1.tables, e.job.addr, inode) && RetryTurn(s2, s3) {
      RetryLooksUp(s2, s3);
      RetryEnds(s3, e, t);
    }
  }

  lemma RetryEnds(s: State, e: DelayEntry, t: int)
    requires Reachable(s) && s.flow.phase.Handling? && s.flow.phase.lastTime == t && s.flow.held == Some(e)
    ensures s.flow.phase.probe.Missing? ==> RetriedAs(s, RetryStep(s), e, t, None)
    ensures s.flow.phase.probe.Found? ==> RetriedAs(s, RetryStep(s), e, t, Some(s.flow.phase.probe.obj))
  {
    ReachableInRange(s);
    RetryEndsInRange(s, e, t);
  }

  lemma RetryEndsInRange(s: State, e: DelayEntry, t: int)
    requires InRange(s) && s.flow.phase.Handling? && s.flow.phase.lastTime == t && s.flow.held == Some(e)
    ensures s.flow.phase.probe.Missing? ==> RetriedAs(s, RetryStep(s), e, t, None)
    ensures s.flow.phase.probe.Found? ==> RetriedAs(s, RetryStep(s), e, t, Some(s.flow.phase.probe.obj))
  {
  }
}
