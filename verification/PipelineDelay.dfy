/** The delay queue and the syncer's drain: retry discipline, what a drain leaves
    behind, and why it ends although workers keep pushing. */
module PipelineDelay {
  import opened Options
  import opened Pipeline
  import opened PipelineLedger

  // -------------------------------------------------------- retry discipline

  function HeldPart(held: Option<DelayEntry>): seq<DelayEntry> {
    if held.None? then [] else [held.value]
  }

  function Entries(retries: seq<Retry>): (r: seq<DelayEntry>)
    ensures |r| == |retries|
  {
    seq(|retries|, i requires 0 <= i < |retries| => retries[i].entry)
  }

  /** The entries ever pushed, in order, are those the syncer is done with, then the
      held one, then the queue. */
  ghost predicate InQueueOrder(pushed: seq<DelayEntry>, retries: seq<Retry>, held: Option<DelayEntry>,
                               popped: seq<DelayEntry>, queue: seq<DelayEntry>) {
    pushed == popped + queue && popped == Entries(retries) + HeldPart(held)
  }

  ghost predicate Fifo(s: State) {
    InQueueOrder(s.log.pushed, s.log.retries, s.flow.held, s.log.popped, s.flow.delayQueue)
  }

  /** Nothing is handled in a drain that recorded its time before the entry's stamp. */
  ghost predicate Timely(s: State) {
    && (forall i :: 0 <= i < |s.log.retries| ==> s.log.retries[i].entry.stamp <= s.log.retries[i].lastTime)
    && (s.flow.phase.Handling? ==> s.flow.held.Some? && s.flow.held.value.stamp <= s.flow.phase.lastTime)
  }

  lemma PushFifo(s: State, w: nat, e: DelayEntry)
    requires w < |s.flow.workers| && Fifo(s)
    ensures Fifo(PushStep(s, w, e))
  {
  }

  lemma ConsumeFifo(s: State)
    requires Fifo(s) && s.flow.held.None?
    ensures Fifo(ConsumeStep(s))
  {
  }

  lemma RetryFifo(s: State)
    requires s.flow.phase.Handling? && s.flow.held.Some? && Fifo(s)
    ensures Fifo(RetryStep(s))
  {
  }

  ghost predicate SameDelay(s: State, r: State) {
    && r.log.pushed == s.log.pushed && r.log.retries == s.log.retries && r.flow.held == s.flow.held
    && r.log.popped == s.log.popped && r.flow.delayQueue == s.flow.delayQueue
  }

  /** Only a push, a pop and the end of a retry touch the delay queue. */
  lemma DelayUntouched(s: State, a: Action)
    requires Enabled(s, a) && !a.Consume? && !a.HandleStep?
    requires a.Work? ==> !s.flow.workers[a.w].Stamped?
    ensures SameDelay(s, Apply(s, a))
  {
  }

  lemma StepFifo(s: State, a: Action)
    requires Enabled(s, a) && Fifo(s)
    ensures Fifo(Apply(s, a))
  {
    if a.Work? && s.flow.workers[a.w].Stamped? {
      PushFifo(s, a.w, s.flow.workers[a.w].entry);
    } else if a.Consume? {
      ConsumeFifo(s);
    } else if a.HandleStep? {
      RetryFifo(s);
    } else {
      DelayUntouched(s, a);
    }
  }

  lemma StepTimely(s: State, a: Action)
    requires Enabled(s, a) && Timely(s)
    ensures Timely(Apply(s, a))
  {
    if a.Work? {
      WorkTimely(s, a.w);
    } else if a.HandleStep? {
      RetryTimely(s);
    }
  }

  lemma WorkTimely(s: State, w: nat)
    requires w < |s.flow.workers| && Timely(s)
    ensures Timely(WorkStep(s, w))
  {
  }

  lemma RetryTimely(s: State)
    requires s.flow.phase.Handling? && s.flow.held.Some? && Timely(s)
    ensures Timely(RetryStep(s))
  {
  }

  lemma {:induction false} RunDiscipline(s: State, actions: seq<Action>, r: State)
    requires Run(s, actions, r) && Fifo(s) && Timely(s)
    ensures Fifo(r) && Timely(r)
    decreases |actions|
  {
    if actions != [] {
      StepFifo(s, actions[0]);
      StepTimely(s, actions[0]);
      RunDiscipline(Apply(s, actions[0]), actions[1..], r);
    }
  }

  /** Over every run, delayed entries are consumed in the order they were queued and
      are handled only in a drain whose lastTime is not before their stamp. */
  lemma RetryDiscipline(s: State)
    requires Reachable(s)
    ensures Fifo(s) && Timely(s)
  {
    var s0, actions :| IsInit(s0) && Run(s0, actions, s);
    RunDiscipline(s0, actions, s);
  }

  /** The held entry, and nothing else, was retried. */
  ghost predicate RetriedNow(s: State, r: State) {
    && s.flow.held.Some? && s.flow.phase.Handling? && r.flow.held == None
    && exists outcome :: r.log.retries == s.log.retries + [Retry(s.flow.held.value, s.flow.phase.lastTime, outcome)]
  }

  /** A held entry stays held, and nothing else is popped or retried, until it is
      itself retried: it is the first one considered in the next drain. */
  lemma HeldGoesFirst(s: State, a: Action)
    requires Reachable(s) && Enabled(s, a) && s.flow.held.Some?
    ensures var r := Apply(s, a); var e := s.flow.held.value;
            && r.log.popped == s.log.popped
            && ((r.flow.held == s.flow.held && r.log.retries == s.log.retries) || RetriedNow(s, r))
            && (RetriedNow(s, r) ==> e.stamp <= s.flow.phase.lastTime)
  {
    RetryDiscipline(s);
    ReachableInRange(s);
    if a.HandleStep? {
      HeldRetry(s);
    } else if a.Work? && s.flow.workers[a.w].Stamped? {
    } else {
      DelayUntouched(s, a);
    }
  }

  lemma HeldRetry(s: State)
    requires s.flow.phase.Handling? && s.flow.held.Some? && InRange(s)
    ensures var r := RetryStep(s);
            && r.log.popped == s.log.popped
            && ((r.flow.held == s.flow.held && r.log.retries == s.log.retries) || RetriedNow(s, r))
  {
  }

  // ------------------------------------------------------ nothing is re-queued

  /** Whatever was pushed is still delayed or held, failed, or was credited. */
  ghost predicate PushedAccounted(pushed: seq<DelayEntry>, queue: seq<DelayEntry>, held: Option<DelayEntry>,
                                  retries: seq<Retry>, credits: seq<CreditRecord>, g: Packet -> int) {
    Total(pushed, OfEntry, g) <=
      Total(queue, OfEntry, g) + Weight(OfHeld(held), g) + Total(retries, OfFailure, g) + Total(credits, OfCredit, g)
  }

  ghost predicate Accounted(s: State, g: Packet -> int) {
    PushedAccounted(s.log.pushed, s.flow.delayQueue, s.flow.held, s.log.retries, s.log.credits, g)
  }

  lemma PushAccounted(s: State, w: nat, e: DelayEntry, g: Packet -> int)
    requires w < |s.flow.workers| && Accounted(s, g)
    ensures Accounted(PushStep(s, w, e), g)
  {
    TotalSnoc(s.log.pushed, e, OfEntry, g);
    TotalSnoc(s.flow.delayQueue, e, OfEntry, g);
  }

  lemma CreditAccounted(s: State, w: nat, job: Job, obj: nat, g: Packet -> int)
    requires w < |s.flow.workers| && Accounted(s, g) && NonNegative(g)
    ensures Accounted(CreditStep(s, w, job, obj), g)
  {
    TotalSnoc(s.log.credits, CreditRecord(job, obj, s.clock / SECOND), OfCredit, g);
  }

  lemma WorkAccounted(s: State, w: nat, g: Packet -> int)
    requires w < |s.flow.workers| && Accounted(s, g) && NonNegative(g)
    ensures Accounted(WorkStep(s, w), g)
  {
    var x := s.flow.workers[w];
    if x.Stamped? {
      PushAccounted(s, w, x.entry, g);
    } else if x.Probing? && x.probe.Found? {
      CreditAccounted(s, w, x.job, x.probe.obj, g);
    }
  }

  lemma RetryAccounted(s: State, g: Packet -> int)
    requires s.flow.phase.Handling? && s.flow.held.Some? && InRange(s) && Accounted(s, g)
    ensures Accounted(RetryStep(s), g)
  {
    var e, t := s.flow.held.value, s.flow.phase.lastTime;
    TotalSnoc(s.log.retries, Retry(e, t, None), OfFailure, g);
    if s.flow.phase.probe.Found? {
      var obj := s.flow.phase.probe.obj;
      TotalSnoc(s.log.retries, Retry(e, t, Some(obj)), OfFailure, g);
      TotalSnoc(s.log.credits, CreditRecord(e.job, obj, s.clock / SECOND), OfCredit, g);
    }
  }

  lemma ConsumeAccounted(s: State, g: Packet -> int)
    requires s.flow.held.None? && Accounted(s, g)
    ensures Accounted(ConsumeStep(s), g)
  {
    if s.flow.delayQueue != [] {
      TotalHead(s.flow.delayQueue, OfEntry, g);
    }
  }

  lemma StepAccounted(s: State, a: Action, g: Packet -> int)
    requires Enabled(s, a) && InRange(s) && Accounted(s, g) && NonNegative(g)
    ensures Accounted(Apply(s, a), g)
  {
    if a.Work? {
      WorkAccounted(s, a.w, g);
    } else if a.HandleStep? {
      RetryAccounted(s, g);
    } else if a.Consume? {
      ConsumeAccounted(s, g);
    } else {
      DelayUntouched(s, a);
    }
  }

  lemma {:induction false} RunAccounted(s: State, actions: seq<Action>, r: State, g: Packet -> int)
    requires Run(s, actions, r) && InRange(s) && Accounted(s, g) && NonNegative(g)
    ensures Accounted(r, g)
    decreases |actions|
  {
    if actions != [] {
      StepInRange(s, actions[0]);
      StepAccounted(s, actions[0], g);
      RunAccounted(Apply(s, actions[0]), actions[1..], r, g);
    }
  }

  lemma PushedOnce(s: State, p: Packet)
    requires Reachable(s)
    ensures Total(s.log.pushed, OfEntry, Only(p)) <= 1
  {
    var g := Only(p);
    var s0, actions :| IsInit(s0) && Run(s0, actions, s);
    RunAccounted(s0, actions, s, g);
    Conservation(s, g);
    AcceptedOnce(s, p);
    TotalNonNegative(s.flow.packetQueue, |s.flow.packetQueue|, Itself, g);
    TotalNonNegative(s.flow.workers, |s.flow.workers|, OfWorker, g);
    TotalNonNegative(s.log.ignored, |s.log.ignored|, Itself, g);
    TotalNonNegative(s.log.overflow, |s.log.overflow|, OfEntry, g);
  }

  /** No packet is ever queued for retry twice, so with the queue order no delayed
      entry is handled twice. */
  lemma NeverRequeued(s: State, i: nat, j: nat)
    requires Reachable(s) && i < j < |s.log.pushed|
    ensures s.log.pushed[i].job.packet != s.log.pushed[j].job.packet
  {
    var p := s.log.pushed[i].job.packet;
    PushedOnce(s, p);
    if s.log.pushed[j].job.packet == p {
      CountsTwice(s.log.pushed, i, j, p, OfEntry);
    }
  }

  // ------------------------------------------------- what a drain leaves behind

  /** Everything pushed up to position j is stamped no later than t. */
  ghost predicate UpTo(pushed: seq<DelayEntry>, j: int, t: int) {
    forall i :: 0 <= i <= j && i < |pushed| ==> pushed[i].stamp <= t
  }

  /** A worker stamps an entry only after its previous push, so an entry is stamped
      no earlier than anything queued up to that worker's previous entry. */
  ghost predicate StampOrder(pushed: seq<DelayEntry>, workers: seq<Worker>, clock: int) {
    && UpTo(pushed, |pushed| - 1, clock)
    && (forall j :: 0 <= j < |pushed| ==> pushed[j].worker < |workers|)
    && (forall j, k :: 0 <= j < k < |pushed| && pushed[j].worker == pushed[k].worker ==>
          UpTo(pushed, j, pushed[k].stamp))
    && (forall w, j :: 0 <= w < |workers| && workers[w].Stamped? && 0 <= j < |pushed| && pushed[j].worker == w ==>
          UpTo(pushed, j, workers[w].entry.stamp))
    && (forall w :: 0 <= w < |workers| && workers[w].Stamped? ==>
          workers[w].entry.worker == w && workers[w].entry.stamp <= clock)
  }

  ghost predicate Stamps(s: State) {
    StampOrder(s.log.pushed, s.flow.workers, s.clock)
  }

  lemma UnstampedOrder(pushed: seq<DelayEntry>, workers: seq<Worker>, clock: int, w: nat, x: Worker)
    requires StampOrder(pushed, workers, clock) && w < |workers| && !x.Stamped?
    ensures StampOrder(pushed, workers[w := x], clock)
  {
  }

  lemma StampedOrder(pushed: seq<DelayEntry>, workers: seq<Worker>, clock: int, w: nat, job: Job)
    requires StampOrder(pushed, workers, clock) && w < |workers|
    ensures StampOrder(pushed, workers[w := Stamped(DelayEntry(clock, job, w))], clock)
  {
  }

  lemma PushedOrder(pushed: seq<DelayEntry>, workers: seq<Worker>, clock: int, w: nat, e: DelayEntry)
    requires StampOrder(pushed, workers, clock) && w < |workers| && workers[w] == Stamped(e)
    ensures StampOrder(pushed + [e], workers[w := Idle], clock)
  {
  }

  lemma WorkStamps(s: State, w: nat)
    requires w < |s.flow.workers| && Stamps(s)
    ensures Stamps(WorkStep(s, w))
  {
    var x := s.flow.workers[w];
    var p, ws := s.log.pushed, s.flow.workers;
    UnstampedOrder(p, ws, s.clock, w, Idle);
    if x.Holding? && x.packet.tcp.Some? {
      UnstampedOrder(p, ws, s.clock, w, Probing(JobOf(x.packet, x.packet.tcp.value, s.bindIPs), ByAddr));
    } else if x.Probing? {
      UnstampedOrder(p, ws, s.clock, w, Probing(x.job, Probed(s.tables, x.job.addr, x.probe)));
      StampedOrder(p, ws, s.clock, w, x.job);
    } else if x.Stamped? {
      PushedOrder(p, ws, s.clock, w, x.entry);
    }
  }

  lemma StampsUntouched(s: State, a: Action)
    requires Enabled(s, a) && !a.Work? && !a.Dequeue? && !a.Exit?
    ensures var r := Apply(s, a); r.log.pushed == s.log.pushed && r.flow.workers == s.flow.workers && r.clock >= s.clock
  {
  }

  lemma StepStamps(s: State, a: Action)
    requires Enabled(s, a) && Stamps(s)
    ensures Stamps(Apply(s, a))
  {
    if a.Work? {
      WorkStamps(s, a.w);
    } else if a.Dequeue? {
      UnstampedOrder(s.log.pushed, s.flow.workers, s.clock, a.w, Holding(s.flow.packetQueue[0]));
    } else if a.Exit? {
      UnstampedOrder(s.log.pushed, s.flow.workers, s.clock, a.w, Exited);
    } else {
      StampsUntouched(s, a);
    }
  }

  lemma {:induction false} RunStamps(s: State, actions: seq<Action>, r: State)
    requires Run(s, actions, r) && Stamps(s)
    ensures Stamps(r)
    decreases |actions|
  {
    if actions != [] {
      StepStamps(s, actions[0]);
      RunStamps(Apply(s, actions[0]), actions[1..], r);
    }
  }

  lemma ReachableStamps(s: State)
    requires Reachable(s)
    ensures Stamps(s)
  {
    var s0, actions :| IsInit(s0) && Run(s0, actions, s);
    RunStamps(s0, actions, s);
  }

  /** With one worker the delay queue is always in timestamp order. */
  lemma OneWorkerInOrder(s: State, i: nat, k: nat)
    requires Reachable(s) && |s.flow.workers| == 1 && i <= k < |s.flow.delayQueue|
    ensures s.flow.delayQueue[i].stamp <= s.flow.delayQueue[k].stamp
  {
    ReachableStamps(s);
    RetryDiscipline(s);
    var p, n := s.log.pushed, |s.log.popped|;
    assert s.flow.delayQueue[i] == p[n + i] && s.flow.delayQueue[k] == p[n + k];
    if i < k {
      assert p[n + i].worker < 1 && p[n + k].worker < 1;
      LaterFromWorker(p, s.flow.workers, s.clock, n + i, n + k);
    }
  }

  /** Queue positions of entries stamped no later than t. */
  ghost function EarlyQueued(queue: seq<DelayEntry>, t: int): set<nat> {
    set i: nat | i < |queue| && queue[i].stamp <= t
  }

  /** Workers holding an entry stamped no later than t. */
  ghost function EarlyHands(workers: seq<Worker>, t: int): set<nat> {
    set w: nat | w < |workers| && workers[w].Stamped? && workers[w].entry.stamp <= t
  }

  /** One position a worker: distinct, and no worker that is also in `hands`. */
  lemma {:induction false} OnePerWorker(queue: seq<DelayEntry>, early: set<nat>, hands: set<nat>, free: set<nat>)
    requires forall i :: i in early ==> i < |queue| && queue[i].worker in free - hands
    requires forall i, j :: i in early && j in early && i != j ==> queue[i].worker != queue[j].worker
    requires hands <= free
    ensures |early| + |hands| <= |free|
    decreases |early|
  {
    if early == {} {
      SubsetSize(hands, free);
    } else {
      var i :| i in early;
      var w := queue[i].worker;
      OnePerWorker(queue, early - {i}, hands, free - {w});
    }
  }

  lemma {:induction false} SubsetSize<T>(a: set<T>, b: set<T>)
    requires a <= b
    ensures |a| <= |b|
  {
    if a != {} {
      var x :| x in a;
      SubsetSize(a - {x}, b - {x});
    }
  }

  /** The worker numbers below n. */
  ghost function Ids(n: nat): (r: set<nat>)
    ensures |r| == n && forall w :: w in r <==> 0 <= w < n
  {
    if n == 0 then {} else Ids(n - 1) + {n - 1}
  }

  lemma LaterFromWorker(pushed: seq<DelayEntry>, workers: seq<Worker>, clock: int, j: nat, k: nat)
    requires StampOrder(pushed, workers, clock) && j < k < |pushed| && pushed[j].worker == pushed[k].worker
    ensures UpTo(pushed, j, pushed[k].stamp)
  {
  }

  lemma LaterInHand(pushed: seq<DelayEntry>, workers: seq<Worker>, clock: int, j: nat)
    requires StampOrder(pushed, workers, clock) && j < |pushed|
    requires pushed[j].worker < |workers| && workers[pushed[j].worker].Stamped?
    ensures UpTo(pushed, j, workers[pushed[j].worker].entry.stamp)
  {
  }

  /** Behind an entry too late to handle, every other worker has at most one early
      entry, and its own worker has none. */
  lemma EarlyBehindLate(pushed: seq<DelayEntry>, workers: seq<Worker>, clock: int, h: nat,
                        queue: seq<DelayEntry>, t: int)
    requires StampOrder(pushed, workers, clock) && h < |pushed| && pushed[h].stamp > t && queue == pushed[h + 1..]
    ensures |EarlyQueued(queue, t)| + |EarlyHands(workers, t)| <= |workers| - 1
  {
    var all := Ids(|workers|);
    var v := pushed[h].worker;
    var early, hands := EarlyQueued(queue, t), EarlyHands(workers, t);
    forall i | i in early ensures queue[i].worker in all - {v} - hands {
      var k := h + 1 + i;
      assert queue[i] == pushed[k];
      if pushed[k].worker == v {
        LaterFromWorker(pushed, workers, clock, h, k);
      } else if pushed[k].worker in hands {
        LaterInHand(pushed, workers, clock, k);
      }
    }
    forall i, j | i in early && j in early && i != j ensures queue[i].worker != queue[j].worker {
      var a, b := h + 1 + if i < j then i else j, h + 1 + if i < j then j else i;
      if pushed[a].worker == pushed[b].worker {
        LaterFromWorker(pushed, workers, clock, a, b);
      }
    }
    forall w | w in hands ensures w in all - {v} {
      if w == v {
        LaterInHand(pushed, workers, clock, h);
      }
    }
    OnePerWorker(queue, early, hands, all - {v});
  }

  /** When a drain ends uncancelled, at most as many entries stamped no later than
      its lastTime remain, in the queue or in workers' hands, as there are workers;
      one fewer when it ends on an entry that is too late. */
  lemma DrainLeavesFew(s: State, a: Action)
    requires Reachable(s) && Enabled(s, a) && s.flow.phase.Draining? && (a.Consume? || a.Consider?)
    requires Apply(s, a).flow.phase == Waiting
    ensures var r := Apply(s, a); var t := s.flow.phase.lastTime;
            |EarlyQueued(r.flow.delayQueue, t)| + |EarlyHands(r.flow.workers, t)| <=
              if a.Consider? then |s.flow.workers| - 1 else |s.flow.workers|
  {
    var t := s.flow.phase.lastTime;
    ReachableStamps(s);
    RetryDiscipline(s);
    if a.Consume? {
      assert EarlyQueued([], t) == {};
      SubsetSize(EarlyHands(s.flow.workers, t), Ids(|s.flow.workers|));
    } else {
      var h := |s.log.retries|;
      assert s.log.popped[h] == s.flow.held.value;
      assert s.log.pushed[h + 1..] == s.flow.delayQueue;
      EarlyBehindLate(s.log.pushed, s.flow.workers, s.clock, h, s.flow.delayQueue, t);
    }
  }

  // -------------------------------------------------- what a drain gets through

  /** The syncer is in the drain that recorded t. */
  predicate InDrain(s: State, t: int) {
    s.flow.phase == Draining(t) || (s.flow.phase.Handling? && s.flow.phase.lastTime == t)
  }

  /** A run inside one drain. */
  ghost predicate DrainPath(s: State, actions: seq<Action>, r: State, t: int)
    decreases |actions|
  {
    InDrain(s, t) &&
    if actions == [] then s == r else Enabled(s, actions[0]) && DrainPath(Apply(s, actions[0]), actions[1..], r, t)
  }

  lemma StepPushed(s: State, a: Action)
    requires Enabled(s, a)
    ensures s.log.pushed <= Apply(s, a).log.pushed
  {
    if a.HandleStep? {
      RetryPushed(s);
    } else if !a.Consume? && !(a.Work? && s.flow.workers[a.w].Stamped?) {
      DelayUntouched(s, a);
    }
  }

  lemma RetryPushed(s: State)
    requires s.flow.phase.Handling? && s.flow.held.Some?
    ensures RetryStep(s).log.pushed == s.log.pushed
  {
  }

  lemma {:induction false} DrainPathRuns(s: State, actions: seq<Action>, r: State, t: int)
    requires DrainPath(s, actions, r, t)
    ensures Run(s, actions, r) && s.log.pushed <= r.log.pushed && InDrain(r, t)
    decreases |actions|
  {
    if actions != [] {
      StepPushed(s, actions[0]);
      DrainPathRuns(Apply(s, actions[0]), actions[1..], r, t);
    }
  }

  lemma {:induction false} RunTwice(s: State, a: seq<Action>, q: State, b: seq<Action>, r: State)
    requires Run(s, a, q) && Run(q, b, r)
    ensures Run(s, a + b, r)
    decreases |a|
  {
    if a == [] {
      assert a + b == b;
    } else {
      assert (a + b)[0] == a[0] && (a + b)[1..] == a[1..] + b;
      RunTwice(Apply(s, a[0]), a[1..], q, b, r);
    }
  }

  lemma DrainPathReaches(s: State, actions: seq<Action>, r: State, t: int)
    requires Reachable(s) && Enabled(s, EndRescan) && DrainPath(Apply(s, EndRescan), actions, r, t)
    ensures Reachable(r) && s.log.pushed <= r.log.pushed && InDrain(r, t)
  {
    var s0, before :| IsInit(s0) && Run(s0, before, s);
    var q := Apply(s, EndRescan);
    RunSnoc(s0, before, s, EndRescan);
    DrainPathRuns(q, actions, r, t);
    RunTwice(s0, before + [EndRescan], q, actions, r);
  }

  /** The entries whose retries are recorded are the first ones pushed; a drain ends,
      uncancelled, only when they are all or the next is stamped too late. */
  lemma EndsPastEarly(s: State, a: Action)
    requires Reachable(s) && Enabled(s, a) && s.flow.phase.Draining? && (a.Consume? || a.Consider?)
    requires Apply(s, a).flow.phase == Waiting
    ensures var n, pushed := |s.log.retries|, s.log.pushed;
            && n <= |pushed| && Entries(s.log.retries) == pushed[..n]
            && (n < |pushed| ==> pushed[n].stamp > s.flow.phase.lastTime)
            && Apply(s, a).log.retries == s.log.retries
  {
    RetryDiscipline(s);
    var n := |s.log.retries|;
    assert s.log.pushed[..n] == Entries(s.log.retries);
    if a.Consider? {
      assert s.log.pushed[n] == s.flow.held.value;
    }
  }

  lemma PastEarly(early: seq<DelayEntry>, pushed: seq<DelayEntry>, n: nat, t: int)
    requires early <= pushed && UpTo(early, |early| - 1, t)
    requires n <= |pushed| && (n < |pushed| ==> pushed[n].stamp > t)
    ensures |early| <= n
  {
    assert forall i :: 0 <= i < |early| ==> pushed[i] == early[i];
  }

  /** A drain that is not cancelled retries every entry that was held or queued when it
      began, so no delayed entry waits for more than one such drain. */
  lemma DrainRetriesAllWaiting(s: State, actions: seq<Action>, r: State, a: Action)
    requires Reachable(s) && Enabled(s, EndRescan) && !s.flow.phase.first
    requires DrainPath(Apply(s, EndRescan), actions, r, s.clock)
    requires Enabled(r, a) && r.flow.phase.Draining? && (a.Consume? || a.Consider?) && Apply(r, a).flow.phase == Waiting
    ensures var done := Apply(r, a).log.retries;
            |s.log.pushed| <= |done| && forall i :: 0 <= i < |s.log.pushed| ==> done[i].entry == s.log.pushed[i]
  {
    ReachableStamps(s);
    DrainPathReaches(s, actions, r, s.clock);
    EndsPastEarly(r, a);
    var n := |r.log.retries|;
    PastEarly(s.log.pushed, r.log.pushed, n, s.clock);
    forall i | 0 <= i < |s.log.pushed| ensures r.log.retries[i].entry == s.log.pushed[i] {
      assert Entries(r.log.retries)[i] == r.log.pushed[..n][i];
    }
  }

  // ------------------------------------------------------------ a drain ends

  ghost function Count<T>(s: seq<T>, n: nat, p: T -> bool): nat
    requires n <= |s|
  {
    if n == 0 then 0 else Count(s, n - 1, p) + if p(s[n - 1]) then 1 else 0
  }

  function One(b: bool): nat { if b then 1 else 0 }

  lemma {:induction false} CountAgree<T>(s: seq<T>, t: seq<T>, n: nat, p: T -> bool)
    requires n <= |s| && n <= |t| && forall i :: 0 <= i < n ==> s[i] == t[i]
    ensures Count(s, n, p) == Count(t, n, p)
  {
    if n > 0 {
      CountAgree(s, t, n - 1, p);
    }
  }

  lemma {:induction false} CountHead<T>(s: seq<T>, n: nat, p: T -> bool)
    requires 1 <= n <= |s|
    ensures Count(s, n, p) == One(p(s[0])) + Count(s[1..], n - 1, p)
  {
    if n > 1 {
      CountHead(s, n - 1, p);
    }
  }

  lemma {:induction false} CountSet<T>(s: seq<T>, i: nat, x: T, n: nat, p: T -> bool)
    requires i < n <= |s|
    ensures Count(s[i := x], n, p) + One(p(s[i])) == Count(s, n, p) + One(p(x))
  {
    if i < n - 1 {
      CountSet(s, i, x, n - 1, p);
    } else {
      CountAgree(s[i := x], s, n - 1, p);
    }
  }

  lemma CountSnoc<T>(s: seq<T>, x: T, p: T -> bool)
    ensures Count(s + [x], |s| + 1, p) == Count(s, |s|, p) + One(p(x))
  {
    CountAgree(s + [x], s, |s|, p);
  }

  function Early(t: int): DelayEntry -> bool { (e: DelayEntry) => e.stamp <= t }
  function EarlyHand(t: int): Worker -> bool { (w: Worker) => w.Stamped? && w.entry.stamp <= t }

  /** Entries stamped no later than t that could still reach the drain. */
  ghost function PendingIn(queue: seq<DelayEntry>, held: Option<DelayEntry>, workers: seq<Worker>, t: int): nat {
    Count(queue, |queue|, Early(t)) + One(held.Some? && held.value.stamp <= t) + Count(workers, |workers|, EarlyHand(t))
  }

  ghost function Pending(s: State, t: int): nat {
    PendingIn(s.flow.delayQueue, s.flow.held, s.flow.workers, t)
  }

  /** The step reads the clock for a delayed entry, no later than t. */
  ghost predicate StampsEarly(s: State, a: Action, t: int)
    requires Enabled(s, a)
  {
    a.Work? && s.flow.workers[a.w].Probing? && s.flow.workers[a.w].probe.Missing? && s.clock <= t
  }

  lemma WorkPending(s: State, w: nat, t: int)
    requires Enabled(s, Work(w))
    ensures Pending(WorkStep(s, w), t) <= Pending(s, t) + One(StampsEarly(s, Work(w), t))
    ensures WorkStep(s, w).log.retries == s.log.retries
  {
    var ws, x, n := s.flow.workers, s.flow.workers[w], |s.flow.workers|;
    CountSet(ws, w, Idle, n, EarlyHand(t));
    if x.Holding? {
      if x.packet.tcp.Some? {
        CountSet(ws, w, Probing(JobOf(x.packet, x.packet.tcp.value, s.bindIPs), ByAddr), n, EarlyHand(t));
      }
    } else if x.Probing? {
      ProbePending(s, w, x.job, x.probe, t);
    } else if x.Stamped? {
      CountSnoc(s.flow.delayQueue, x.entry, Early(t));
    }
  }

  lemma ProbePending(s: State, w: nat, job: Job, probe: Probe, t: int)
    requires w < |s.flow.workers| && s.flow.workers[w] == Probing(job, probe)
    ensures Pending(WorkStep(s, w), t) <= Pending(s, t) + One(probe.Missing? && s.clock <= t)
    ensures WorkStep(s, w).log.retries == s.log.retries
  {
    var ws, n := s.flow.workers, |s.flow.workers|;
    CountSet(ws, w, Idle, n, EarlyHand(t));
    CountSet(ws, w, Probing(job, Probed(s.tables, job.addr, probe)), n, EarlyHand(t));
    CountSet(ws, w, Stamped(DelayEntry(s.clock, job, w)), n, EarlyHand(t));
  }

  lemma ConsumePending(s: State, t: int)
    requires s.flow.held.None?
    ensures Pending(ConsumeStep(s), t) == Pending(s, t) && ConsumeStep(s).log.retries == s.log.retries
  {
    if s.flow.delayQueue != [] {
      CountHead(s.flow.delayQueue, |s.flow.delayQueue|, Early(t));
    }
  }

  lemma RetryPending(s: State, t: int)
    requires s.flow.phase.Handling? && s.flow.held.Some? && Timely(s) && s.flow.phase.lastTime == t
    ensures |RetryStep(s).log.retries| + Pending(RetryStep(s), t) == |s.log.retries| + Pending(s, t)
  {
  }

  /** During a drain that recorded t no step raises the count of pending entries plus
      handled ones, but for a stamp taken no later than t, which raises it by one. */
  lemma PendingStep(s: State, a: Action, t: int)
    requires Enabled(s, a) && InDrain(s, t) && Timely(s)
    ensures |Apply(s, a).log.retries| + Pending(Apply(s, a), t) <=
            |s.log.retries| + Pending(s, t) + One(StampsEarly(s, a, t))
  {
    if a.Work? {
      WorkPending(s, a.w, t);
    } else if a.Consume? {
      ConsumePending(s, t);
    } else if a.HandleStep? {
      RetryPending(s, t);
    } else {
      HandsPending(s, a, t);
    }
  }

  lemma HandsPending(s: State, a: Action, t: int)
    requires Enabled(s, a) && !a.Work? && !a.Consume? && !a.HandleStep?
    ensures Pending(Apply(s, a), t) <= Pending(s, t) && Apply(s, a).log.retries == s.log.retries
  {
    DelayUntouched(s, a);
    if a.Dequeue? {
      CountSet(s.flow.workers, a.w, Holding(s.flow.packetQueue[0]), |s.flow.workers|, EarlyHand(t));
    } else if a.Exit? {
      CountSet(s.flow.workers, a.w, Exited, |s.flow.workers|, EarlyHand(t));
    } else {
      StampsUntouched(s, a);
    }
  }

  /** How many stamps taken in the run are no later than t. */
  ghost function EarlyStamps(s: State, actions: seq<Action>, t: int): nat
    decreases |actions|
  {
    if actions == [] || !Enabled(s, actions[0]) then 0
    else One(StampsEarly(s, actions[0], t)) + EarlyStamps(Apply(s, actions[0]), actions[1..], t)
  }

  lemma {:induction false} DrainRunBound(s: State, actions: seq<Action>, r: State, t: int)
    requires DrainPath(s, actions, r, t) && Timely(s)
    ensures |r.log.retries| + Pending(r, t) <= |s.log.retries| + Pending(s, t) + EarlyStamps(s, actions, t)
    decreases |actions|
  {
    if actions != [] {
      PendingStep(s, actions[0], t);
      StepTimely(s, actions[0]);
      DrainRunBound(Apply(s, actions[0]), actions[1..], r, t);
    }
  }

  /** However long the drain runs and whatever the workers push meanwhile, it handles at
      most the entries that were pending when it began and those stamped since then no
      later than its lastTime.  If the clock has moved on, that is none of the latter. */
  lemma DrainHandlesAtMostPending(s: State, actions: seq<Action>, r: State, t: int)
    requires Reachable(s) && DrainPath(s, actions, r, t)
    ensures |r.log.retries| - |s.log.retries| <= Pending(s, t) - Pending(r, t) + EarlyStamps(s, actions, t)
    ensures s.clock > t ==> EarlyStamps(s, actions, t) == 0
  {
    RetryDiscipline(s);
    DrainRunBound(s, actions, r, t);
    LateClock(s, actions, t);
  }

  /** Once the clock has passed t no stamp is as early as t. */
  lemma {:induction false} LateClock(s: State, actions: seq<Action>, t: int)
    ensures s.clock > t ==> EarlyStamps(s, actions, t) == 0
    decreases |actions|
  {
    if actions != [] && Enabled(s, actions[0]) && s.clock > t {
      ClockForward(s, actions[0]);
      LateClock(Apply(s, actions[0]), actions[1..], t);
    }
  }

  lemma ClockForward(s: State, a: Action)
    requires Enabled(s, a)
    ensures Apply(s, a).clock >= s.clock
  {
  }
}
