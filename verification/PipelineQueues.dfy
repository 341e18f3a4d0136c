/** The buffers between the goroutines are first-in first-out and refuse only what they
    have no room for; no goroutine is ever stuck, and none stops before cancellation. */
module PipelineQueues {
  import opened Options
  import opened ConnectionMap
  import opened Netstat
  import opened Pipeline
  import opened PipelineLedger

  // -------------------------------------------------------------- first in first out

  /** What packetQueue holds are the packets accepted last, in the order accepted. */
  ghost predicate NewestAccepted(accepted: seq<Packet>, queue: seq<Packet>) {
    |queue| <= |accepted| && accepted[|accepted| - |queue|..] == queue
  }

  /** What a device has in hand arrived before what is in its buffer, which is in the
      order of arrival; n packets have arrived. */
  ghost predicate InArrivalOrder(d: Device, n: nat) {
    && (forall i, j :: 0 <= i < j < |d.buffer| ==> d.buffer[i].id < d.buffer[j].id)
    && (d.forwarding.Some? ==>
          d.forwarding.value.id < n && forall i :: 0 <= i < |d.buffer| ==> d.forwarding.value.id < d.buffer[i].id)
    && (forall i :: 0 <= i < |d.buffer| ==> d.buffer[i].id < n)
  }

  ghost predicate InOrder(s: State) {
    && NewestAccepted(s.log.accepted, s.flow.packetQueue)
    && AllInArrivalOrder(s.flow.devices, |s.log.arrived|)
  }

  lemma StepNewest(s: State, a: Action)
    requires Enabled(s, a) && NewestAccepted(s.log.accepted, s.flow.packetQueue)
    ensures NewestAccepted(Apply(s, a).log.accepted, Apply(s, a).flow.packetQueue)
  {
    if !a.Enqueue? && !a.Dequeue? {
      PacketsUntouched(s, a);
    }
  }

  ghost predicate SamePackets(s: State, r: State) {
    r.log.accepted == s.log.accepted && r.flow.packetQueue == s.flow.packetQueue
  }

  lemma PacketsUntouched(s: State, a: Action)
    requires Enabled(s, a) && !a.Enqueue? && !a.Dequeue?
    ensures SamePackets(s, Apply(s, a))
  {
    if a.Work? {
      WorkSamePackets(s, a.w);
    } else if a.HandleStep? {
      RetrySamePackets(s);
    } else if !a.Exit? && !a.Consume? {
      LedgerUntouched(s, a);
      assert LedgerOf(Apply(s, a)).accepted == LedgerOf(s).accepted;
    }
  }

  lemma WorkSamePackets(s: State, w: nat)
    requires w < |s.flow.workers|
    ensures SamePackets(s, WorkStep(s, w))
  {
  }

  lemma RetrySamePackets(s: State)
    requires s.flow.phase.Handling? && s.flow.held.Some?
    ensures SamePackets(s, RetryStep(s))
  {
  }

  ghost predicate AllInArrivalOrder(ds: seq<Device>, n: nat) {
    forall d :: 0 <= d < |ds| ==> InArrivalOrder(ds[d], n)
  }

  lemma DeviceInOrder(ds: seq<Device>, n: nat, d: nat, x: Device, m: nat)
    requires AllInArrivalOrder(ds, n) && n <= m && d < |ds| && InArrivalOrder(x, m)
    ensures AllInArrivalOrder(ds[d := x], m)
  {
  }

  lemma ArriveInOrder(x: Device, n: nat, p: Packet)
    requires InArrivalOrder(x, n) && p.id == n
    ensures InArrivalOrder(x.(buffer := x.buffer + [p]), n + 1)
  {
  }

  lemma ForwardInOrder(x: Device, n: nat)
    requires InArrivalOrder(x, n) && x.buffer != []
    ensures InArrivalOrder(Device(x.buffer[1..], Some(x.buffer[0])), n)
  {
  }

  lemma StepArrivals(s: State, a: Action)
    requires Enabled(s, a) && AllInArrivalOrder(s.flow.devices, |s.log.arrived|)
    ensures AllInArrivalOrder(Apply(s, a).flow.devices, |Apply(s, a).log.arrived|)
  {
    var ds, n := s.flow.devices, |s.log.arrived|;
    if a.Arrive? {
      var p := Packet(n, a.tcp);
      ArriveInOrder(ds[a.dev], n, p);
      DeviceInOrder(ds, n, a.dev, ds[a.dev].(buffer := ds[a.dev].buffer + [p]), n + 1);
      assert AllInArrivalOrder(ds, n + 1);
    } else if a.Forward? {
      ForwardInOrder(ds[a.dev], n);
      DeviceInOrder(ds, n, a.dev, Device(ds[a.dev].buffer[1..], Some(ds[a.dev].buffer[0])), n);
    } else if a.Enqueue? {
      DeviceInOrder(ds, n, a.dev, ds[a.dev].(forwarding := None), n);
    } else {
      CaptureUntouched(s, a);
      assert IntakeOf(Apply(s, a)) == IntakeOf(s);
    }
  }

  lemma {:induction false} RunInOrder(s: State, actions: seq<Action>, r: State)
    requires Run(s, actions, r) && InOrder(s)
    ensures InOrder(r)
    decreases |actions|
  {
    if actions != [] {
      StepNewest(s, actions[0]);
      StepArrivals(s, actions[0]);
      RunInOrder(Apply(s, actions[0]), actions[1..], r);
    }
  }

  /** Over every run packets leave each buffer and packetQueue in the order they came. */
  lemma PacketsInOrder(s: State)
    requires Reachable(s)
    ensures NewestAccepted(s.log.accepted, s.flow.packetQueue)
    ensures AllInArrivalOrder(s.flow.devices, |s.log.arrived|)
  {
    var s0, actions :| IsInit(s0) && Run(s0, actions, s);
    RunInOrder(s0, actions, s);
  }

  // ------------------------------------------------------------- room and no room

  /** A capture buffer takes an arriving packet exactly when it has room. */
  lemma ArrivalNeedsRoom(s: State, d: nat, tcp: Option<Segment>)
    requires Enabled(s, Arrive(d, tcp))
    ensures var r := Apply(s, Arrive(d, tcp)); var p := Packet(|s.log.arrived|, tcp);
            if |s.flow.devices[d].buffer| < 10_000_000
            then r.flow.devices[d].buffer == s.flow.devices[d].buffer + [p] && r.log.bufferDrops == s.log.bufferDrops
            else r.flow.devices == s.flow.devices && r.log.bufferDrops == s.log.bufferDrops + [p]
  {
  }

  /** packetQueue takes a forwarder's packet exactly when it has room, and counts it. */
  lemma EnqueueNeedsRoom(s: State, d: nat)
    requires Enabled(s, Enqueue(d))
    ensures var r := Apply(s, Enqueue(d)); var p := s.flow.devices[d].forwarding.value;
            if |s.flow.packetQueue| < 2_000_000
            then r.flow.packetQueue == s.flow.packetQueue + [p] && r.log.accepted == s.log.accepted + [p]
                 && r.counter == s.counter + 1 && r.log.queueDrops == s.log.queueDrops
            else r.flow.packetQueue == s.flow.packetQueue && r.log.accepted == s.log.accepted
                 && r.counter == s.counter && r.log.queueDrops == s.log.queueDrops + [p]
  {
  }

  /** No step of anybody drops anything there is room for. */
  lemma DropsOnlyWhenFull(s: State, a: Action)
    requires Enabled(s, a)
    ensures var r := Apply(s, a);
            && (r.log.bufferDrops != s.log.bufferDrops ==> a.Arrive? && |s.flow.devices[a.dev].buffer| >= 10_000_000)
            && (r.log.queueDrops != s.log.queueDrops ==> |s.flow.packetQueue| >= 2_000_000)
            && (r.log.overflow != s.log.overflow ==> |s.flow.delayQueue| >= 2_000_000)
  {
    if a.Work? {
      WorkDropsOnlyWhenFull(s, a.w);
    }
  }

  lemma WorkDropsOnlyWhenFull(s: State, w: nat)
    requires w < |s.flow.workers|
    ensures var r := WorkStep(s, w);
            && r.log.bufferDrops == s.log.bufferDrops && r.log.queueDrops == s.log.queueDrops
            && (r.log.overflow != s.log.overflow ==> |s.flow.delayQueue| >= 2_000_000)
  {
  }

  // ------------------------------------------------------------ moving and stopping

  /** Some step of the syncer can be taken, if only the next rescan. */
  ghost predicate SyncerCanMove(s: State) {
    || (exists conns :: Enabled(s, BeginRescan(conns))) || Enabled(s, ListStep) || Enabled(s, ScanFails)
    || Enabled(s, EndRescan) || Enabled(s, Consume) || Enabled(s, Consider) || Enabled(s, HandleStep)
  }

  /** No goroutine is ever stuck: a worker or a forwarder waits only for packets, and the
      syncer can go on until it has stopped. */
  lemma NobodyIsStuck(s: State, w: nat, d: nat)
    requires Reachable(s)
    ensures w < |s.flow.workers| && s.flow.workers[w] != Exited ==>
              Enabled(s, Work(w)) || (s.flow.workers[w] == Idle && (s.flow.packetQueue == [] || Enabled(s, Dequeue(w))))
    ensures d < |s.flow.devices| ==>
              || Enabled(s, Enqueue(d)) || Enabled(s, Forward(d))
              || (s.flow.devices[d].forwarding == None && s.flow.devices[d].buffer == [])
    ensures s.flow.phase == Stopped || SyncerCanMove(s)
  {
    ReachableInRange(s);
    if s.flow.phase != Stopped {
      SyncerGoesOn(s);
    }
  }

  lemma SyncerGoesOn(s: State)
    requires InRange(s) && s.flow.phase != Stopped
    ensures SyncerCanMove(s)
  {
    if s.flow.phase.Starting? || s.flow.phase.Waiting? {
      assert Enabled(s, BeginRescan([]));
    }
  }

  ghost predicate StopsInTime(s: State) {
    s.cancelled || (s.flow.phase != Stopped && forall w :: 0 <= w < |s.flow.workers| ==> s.flow.workers[w] != Exited)
  }

  lemma StepStops(s: State, a: Action)
    requires Enabled(s, a) && StopsInTime(s)
    ensures StopsInTime(Apply(s, a))
  {
    if a.Work? {
      WorkStops(s, a.w);
    }
  }

  lemma WorkStops(s: State, w: nat)
    requires w < |s.flow.workers| && StopsInTime(s)
    ensures StopsInTime(WorkStep(s, w))
  {
  }

  lemma {:induction false} RunStops(s: State, actions: seq<Action>, r: State)
    requires Run(s, actions, r) && StopsInTime(s)
    ensures StopsInTime(r)
    decreases |actions|
  {
    if actions != [] {
      StepStops(s, actions[0]);
      RunStops(Apply(s, actions[0]), actions[1..], r);
    }
  }

  /** Over every run no worker exits and the syncer does not stop before cancellation. */
  lemma NobodyStopsEarly(s: State, w: nat)
    requires Reachable(s) && !s.cancelled
    ensures s.flow.phase != Stopped && (w < |s.flow.workers| ==> s.flow.workers[w] != Exited)
  {
    var s0, actions :| IsInit(s0) && Run(s0, actions, s);
    RunStops(s0, actions, s);
  }

  // ------------------------------------------------------------- listing, cleaning

  lemma {:induction false} WantedByIs(conns: seq<ConnectionItem>, i: nat)
    requires i < |conns|
    ensures |WantedBy(conns)| == 2 * |conns|
    ensures WantedBy(conns)[2 * i] == Wanted(conns[i].addr, conns[i].inode)
    ensures WantedBy(conns)[2 * i + 1] == Wanted(conns[i].reverseAddr, conns[i].inode)
  {
    WantedByLength(conns[..|conns| - 1]);
    if i < |conns| - 1 {
      WantedByIs(conns[..|conns| - 1], i);
    }
  }

  lemma {:induction false} WantedByLength(conns: seq<ConnectionItem>)
    ensures |WantedBy(conns)| == 2 * |conns|
  {
    if conns != [] {
      WantedByLength(conns[..|conns| - 1]);
    }
  }

  /** A rescan goes through both keys of every connection it read, in the order read, and
      through nothing else. */
  lemma RescanListsAll(s: State, conns: seq<ConnectionItem>, i: nat)
    requires Enabled(s, BeginRescan(conns))
    ensures var r := Apply(s, BeginRescan(conns));
            && r.flow.phase.Rescanning? && r.flow.phase.todo == r.round.listed && |r.round.listed| == 2 * |conns|
            && (i < |conns| ==> r.round.listed[2 * i] == Wanted(conns[i].addr, conns[i].inode))
            && (i < |conns| ==> r.round.listed[2 * i + 1] == Wanted(conns[i].reverseAddr, conns[i].inode))
            && r.log.everListed == s.log.everListed + set x | x in r.round.listed
  {
    WantedByLength(conns);
    if i < |conns| {
      WantedByIs(conns, i);
    }
  }

  /** A Cleanup removes exactly the entries more than two minutes old, and changes no other. */
  lemma CleanupRemovesExpired(s: State, key: string)
    ensures var r := Apply(s, Cleanup);
            && (key in r.tables.conns <==>
                key in s.tables.conns && s.clock - s.tables.conns[key].timestamp <= 120 * 1_000_000_000)
            && (key in r.tables.conns ==> r.tables.conns[key] == s.tables.conns[key])
            && (key in r.round.lost <==>
                key in s.round.lost || (key in s.tables.conns && key !in r.tables.conns))
            && r.log.lastCleanup == s.clock && r.tables == s.tables.(conns := r.tables.conns)
  {
  }

  /** What is remembered of listings and scans for the soundness of attribution grows only
      by what a rescan read, and what a key was last listed at is the clock's word. */
  lemma OnlyRescansAreRemembered(s: State, a: Action)
    requires Enabled(s, a)
    ensures var r := Apply(s, a);
            && (!a.BeginRescan? ==> r.log.everListed == s.log.everListed)
            && (forall x :: x in r.log.everScanned ==>
                  x in s.log.everScanned || (a.ScanProcesses? && x.0 in a.scan && x.1 in a.scan[x.0]))
            && (forall k :: k in r.log.lastListed ==>
                  r.log.lastListed[k] == s.clock ||
                  (k in s.log.lastListed && r.log.lastListed[k] == s.log.lastListed[k]))
  {
  }
}
