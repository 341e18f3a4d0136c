/** Runs that show what the drain theorems cannot do without.  A Cleanup between a
    rescan's listing and the end of its drain can make the drain discard an entry of a
    connection that is listed, agrees with the list and has a scanned inode; and on a
    clock that stands still one drain can go on for ever. */
module PipelineWitness {
  import opened Options
  import opened ConnectionMap
  import opened ProcessIndex
  import opened Netstat
  import opened Pipeline
  import opened PipelineDelay
  import opened PipelineTables

  /** Where a run comes from: the beginning, or a state in the drain that recorded t,
      without leaving that drain. */
  datatype Origin = Start | Within(from: State, t: int)

  ghost predicate Reached(o: Origin, s: State) {
    match o
    case Start => Reachable(s)
    case Within(from, t) => exists actions :: DrainPath(from, actions, s, t)
  }

  /** Whether a step may be taken without leaving the origin's drain. */
  ghost predicate Stays(o: Origin, s: State) {
    o.Within? ==> InDrain(s, o.t)
  }

  lemma {:induction false} PathSnoc(s: State, actions: seq<Action>, r: State, t: int, a: Action)
    requires DrainPath(s, actions, r, t) && Enabled(r, a) && InDrain(Apply(r, a), t)
    ensures DrainPath(s, actions + [a], Apply(r, a), t)
    decreases |actions|
  {
    if actions == [] {
      assert [a][1..] == [];
    } else {
      PathSnoc(Apply(s, actions[0]), actions[1..], r, t, a);
      assert (actions + [a])[1..] == actions[1..] + [a];
    }
  }

  lemma StepFrom(o: Origin, s: State, a: Action) returns (r: State)
    requires Reached(o, s) && Enabled(s, a) && Stays(o, Apply(s, a))
    ensures r == Apply(s, a) && Reached(o, r)
  {
    r := Apply(s, a);
    if o.Start? {
      var s0, actions :| IsInit(s0) && Run(s0, actions, s);
      RunSnoc(s0, actions, s, a);
    } else {
      var actions :| DrainPath(o.from, actions, s, o.t);
      PathSnoc(o.from, actions, s, o.t, a);
    }
  }

  lemma Step(s: State, a: Action) returns (r: State)
    requires Reachable(s) && Enabled(s, a)
    ensures r == Apply(s, a) && Reachable(r)
  {
    r := StepFrom(Start, s, a);
  }

  /** A connection listed under two different keys. */
  ghost predicate Plain(conn: ConnectionItem, ends: Endpoints) {
    conn.addr == SpliceAddr(ends) && conn.reverseAddr == SpliceAddr(ends.Reversed())
    && conn.addr != conn.reverseAddr && conn.inode != ""
  }

  /** One device and one worker, both at rest, and nothing queued. */
  const REST: Flow := Flow([Device([], None)], [], [Idle], [], Waiting, None)

  ghost predicate AtRest(s: State, phase: Phase) {
    s.flow == REST.(phase := phase) && s.log.retries == []
  }

  function Pair(conn: ConnectionItem): seq<Wanted> {
    [Wanted(conn.addr, conn.inode), Wanted(conn.reverseAddr, conn.inode)]
  }

  lemma WantedByOne(conn: ConnectionItem)
    ensures WantedBy([conn]) == Pair(conn)
  {
  }

  /** Listing a wanted key that is absent takes two steps and adds it. */
  lemma ListAbsent(s: State, first: bool, x: Wanted, rest: seq<Wanted>) returns (r: State)
    requires Reachable(s) && s.flow.phase == Rescanning(first, [x] + rest, false, false)
    requires !Exists(s.tables.conns, x.key, x.inode) && s.round.lost == {}
    ensures Reachable(r) && r.flow == s.flow.(phase := Rescanning(first, rest, false, false))
    ensures r.tables == s.tables.(conns := s.tables.conns[x.key := Entry(x.inode, s.clock)])
    ensures r.round == s.round && r.clock == s.clock && r.log.retries == s.log.retries
  {
    assert ([x] + rest)[1..] == rest;
    r := Step(s, ListStep);
    r := Step(r, ListStep);
  }

  /** Listing a wanted key that is present takes one step and changes no entry. */
  lemma ListPresent(s: State, first: bool, x: Wanted, rest: seq<Wanted>) returns (r: State)
    requires Reachable(s) && s.flow.phase == Rescanning(first, [x] + rest, false, false)
    requires Exists(s.tables.conns, x.key, x.inode)
    ensures Reachable(r) && r.flow == s.flow.(phase := Rescanning(first, rest, false, false))
    ensures r.tables == s.tables && r.round == s.round && r.clock == s.clock && r.log.retries == s.log.retries
  {
    assert ([x] + rest)[1..] == rest;
    r := Step(s, ListStep);
  }

  lemma Scan(s: State, first: bool, pid: string, inode: string) returns (r: State)
    requires Reachable(s) && s.flow.phase == Rescanning(first, [], false, false)
    ensures Reachable(r) && r.flow == s.flow.(phase := Rescanning(first, [], false, true))
    ensures r.tables.conns == s.tables.conns && r.round == s.round.(scan := Some(map[pid := [inode]]), order := [pid])
    ensures r.clock == s.clock && r.log.retries == s.log.retries
  {
    var scan := map[pid := [inode]];
    assert IsOrder([pid], scan.Keys);
    r := Step(s, ScanProcesses(scan, [pid], [pid]));
  }

  /** A rescan that lists the one connection begins. */
  lemma Begin(s: State, conn: ConnectionItem) returns (r: State)
    requires Reachable(s) && (s.flow.phase.Starting? || s.flow.phase.Waiting?)
    ensures Reachable(r) && r.tables == s.tables && r.clock == s.clock && r.log.retries == s.log.retries
    ensures r.round == Round(Pair(conn), None, [], {})
    ensures r.flow ==
            s.flow.(phase := Rescanning(s.flow.phase.Starting?, [Pair(conn)[0]] + [Pair(conn)[1]], false, false))
  {
    WantedByOne(conn);
    assert Pair(conn) == [Pair(conn)[0]] + [Pair(conn)[1]];
    r := Step(s, BeginRescan([conn]));
  }

  /** The first rescan, at time 0, records the connection. */
  lemma FirstRescan(conn: ConnectionItem, ends: Endpoints, pid: string) returns (r: State)
    requires Plain(conn, ends)
    ensures Reachable(r) && AtRest(r, Waiting) && r.clock == 0
    ensures r.tables.conns == map[conn.addr := Entry(conn.inode, 0)][conn.reverseAddr := Entry(conn.inode, 0)]
  {
    var s0 := Init(0, {}, 1, 1);
    assert Run(s0, [], s0);
    assert s0.flow == REST.(phase := Starting);
    r := Begin(s0, conn);
    var x, y := Pair(conn)[0], Pair(conn)[1];
    r := ListAbsent(r, true, x, [y]);
    assert [y] == [y] + [];
    r := ListAbsent(r, true, y, []);
    r := Scan(r, true, pid, conn.inode);
    r := Step(r, EndRescan);
  }

  /** Two minutes and a second later the next rescan finds the connection present and
      adds nothing. */
  lemma SecondListing(s: State, conn: ConnectionItem, ends: Endpoints) returns (r: State)
    requires Plain(conn, ends) && Reachable(s) && AtRest(s, Waiting)
    requires Exists(s.tables.conns, conn.addr, conn.inode) && Exists(s.tables.conns, conn.reverseAddr, conn.inode)
    ensures Reachable(r) && AtRest(r, Rescanning(false, [], false, false)) && r.tables.conns == s.tables.conns
    ensures r.round == Round(Pair(conn), None, [], {}) && r.clock == s.clock + 121 * SECOND
  {
    r := Step(s, Tick(121 * SECOND));
    r := Begin(r, conn);
    var x, y := Pair(conn)[0], Pair(conn)[1];
    r := ListPresent(r, false, x, [y]);
    assert [y] == [y] + [];
    r := ListPresent(r, false, y, []);
  }

  /** A Cleanup expires everything recorded at time 0. */
  lemma Expire(s: State) returns (r: State)
    requires Reachable(s) && s.clock == 121 * SECOND
    requires forall k :: k in s.tables.conns ==> s.tables.conns[k].timestamp == 0
    ensures Reachable(r) && r.flow == s.flow && r.tables.conns == map[]
    ensures r.round == s.round.(lost := s.round.lost + s.tables.conns.Keys) && r.log.retries == s.log.retries
  {
    assert Kept(s.tables.conns, s.clock, EXPIRATION) == map[];
    r := Step(s, Cleanup);
  }

  /** A packet is queued. */
  lemma QueuePacket(o: Origin, s: State, g: Segment) returns (r: State, p: Packet)
    requires Reached(o, s) && Stays(o, s) && s.flow == REST.(phase := s.flow.phase)
    ensures Reached(o, r) && r.clock == s.clock && r.round == s.round && r.tables == s.tables
    ensures r.log.retries == s.log.retries
    ensures p.tcp == Some(g) && r.flow == s.flow.(packetQueue := [p])
  {
    r := StepFrom(o, s, Arrive(0, Some(g)));
    p := Packet(|s.log.arrived|, Some(g));
    assert [] + [p] == [p] && [p][1..] == [];
    assert r.flow == s.flow.(devices := [Device([p], None)]);
    r := StepFrom(o, r, Forward(0));
    assert r.flow == s.flow.(devices := [Device([], Some(p))]);
    r := StepFrom(o, r, Enqueue(0));
    assert r.flow == s.flow.(packetQueue := [p]);
  }

  /** A worker takes the packet and does not find its key. */
  lemma MissPacket(o: Origin, s: State, p: Packet, g: Segment) returns (r: State, job: Job)
    requires Reached(o, s) && Stays(o, s) && s.flow == REST.(phase := s.flow.phase, packetQueue := [p])
    requires p.tcp == Some(g) && s.tables.conns == map[]
    ensures Reached(o, r) && r.flow == REST.(phase := s.flow.phase, workers := [Probing(job, Missing)])
    ensures job.addr == SpliceAddr(g.ends)
    ensures r.clock == s.clock && r.round == s.round && r.tables == s.tables && r.log.retries == s.log.retries
  {
    r := StepFrom(o, s, Dequeue(0));
    assert r.flow == REST.(phase := s.flow.phase, workers := [Holding(p)]);
    job := JobOf(p, g, r.bindIPs);
    r := StepFrom(o, r, Work(0));
    assert r.flow == REST.(phase := s.flow.phase, workers := [Probing(job, ByAddr)]);
    r := StepFrom(o, r, Work(0));
    assert r.flow == REST.(phase := s.flow.phase, workers := [Probing(job, Missing)]);
  }

  /** The worker stamps the entry and pushes it. */
  lemma PushMissed(o: Origin, s: State, job: Job) returns (r: State, e: DelayEntry)
    requires Reached(o, s) && Stays(o, s) && s.flow == REST.(phase := s.flow.phase, workers := [Probing(job, Missing)])
    ensures Reached(o, r) && r.flow == REST.(phase := s.flow.phase, delayQueue := [e])
    ensures e == DelayEntry(r.clock, job, 0)
    ensures r.clock == s.clock && r.round == s.round && r.tables == s.tables && r.log.retries == s.log.retries
  {
    e := DelayEntry(s.clock, job, 0);
    r := StepFrom(o, s, Work(0));
    assert r.flow == REST.(phase := s.flow.phase, workers := [Stamped(e)]);
    r := StepFrom(o, r, Work(0));
    assert [] + [e] == [e];
    assert r.flow == REST.(phase := s.flow.phase, delayQueue := [e]);
  }

  /** A packet arrives, is not found and is delayed, stamped by the present clock. */
  lemma DelayPacket(o: Origin, s: State, ends: Endpoints) returns (r: State, e: DelayEntry)
    requires Reached(o, s) && Stays(o, s) && s.flow == REST.(phase := s.flow.phase) && s.tables.conns == map[]
    ensures Reached(o, r) && r.flow == REST.(phase := s.flow.phase, delayQueue := [e])
    ensures e.stamp == r.clock && e.job.addr == SpliceAddr(ends)
    ensures r.clock == s.clock && r.round == s.round && r.tables == s.tables && r.log.retries == s.log.retries
  {
    var g := Segment(ends, 5, 5, 0);
    var p, job;
    r, p := QueuePacket(o, s, g);
    r, job := MissPacket(o, r, p, g);
    r, e := PushMissed(o, r, job);
  }

  /** Listed, expired by a Cleanup in mid-rescan, and a packet delayed. */
  lemma DelayedAfterExpiry(conn: ConnectionItem, ends: Endpoints, pid: string) returns (r: State, e: DelayEntry)
    requires Plain(conn, ends)
    ensures Reachable(r) && r.flow == REST.(phase := Rescanning(false, [], false, false), delayQueue := [e])
    ensures r.tables.conns == map[] && e.stamp == r.clock && e.job.addr == conn.addr && r.log.retries == []
    ensures r.round == Round(Pair(conn), None, [], {conn.addr, conn.reverseAddr})
  {
    r := FirstRescan(conn, ends, pid);
    r := SecondListing(r, conn, ends);
    r := Expire(r);
    r, e := DelayPacket(Start, r, ends);
  }

  /** For every connection, inode and process there is a run whose drain discards the
      entry of that listed connection: everything CleanupTransparent asks for holds
      except that a Cleanup found the entry expired after the rescan had listed it. */
  lemma CleanupTimingMatters(conn: ConnectionItem, ends: Endpoints, pid: string)
    requires Plain(conn, ends)
    ensures exists s: State, e: DelayEntry ::
              && Reachable(s) && s.flow.held == Some(e) && e.job.addr == conn.addr
              && s.round.lost == {conn.addr, conn.reverseAddr} && ListedUnder(s, conn.addr, conn.inode)
              && s.round.scan == Some(map[pid := [conn.inode]])
              && Enabled(s, HandleStep)
              && Apply(s, HandleStep).log.retries == [Retry(e, s.clock, None)]
  {
    var r, e := DelayedAfterExpiry(conn, ends, pid);
    r := Scan(r, false, pid, conn.inode);
    r := DrainToMiss(r, e);
    assert Pair(conn)[0] == Wanted(conn.addr, conn.inode);
  }

  lemma DrainToMiss(s: State, e: DelayEntry) returns (r: State)
    requires Reachable(s) && s.flow.phase == Rescanning(false, [], false, true) && s.flow.delayQueue == [e]
    requires s.flow.held == None && s.tables.conns == map[] && e.stamp == s.clock && s.log.retries == []
    ensures Reachable(r) && r.flow.held == Some(e) && r.round == s.round
    ensures Enabled(r, HandleStep) && Apply(r, HandleStep).log.retries == [Retry(e, r.clock, None)]
  {
    r := HandleHead(s, e);
    r := Step(r, HandleStep);
    MissDiscards(r, e);
  }

  lemma HandleHead(s: State, e: DelayEntry) returns (r: State)
    requires Reachable(s) && s.flow.phase == Rescanning(false, [], false, true) && s.flow.delayQueue == [e]
    requires s.flow.held == None && e.stamp == s.clock
    ensures Reachable(r) && r.flow.held == Some(e) && r.flow.phase == Handling(s.clock, ByAddr)
    ensures r.clock == s.clock && r.round == s.round && r.tables == s.tables && r.log.retries == s.log.retries
  {
    r := Step(s, EndRescan);
    r := Step(r, Consume);
    r := Step(r, Consider);
  }

  lemma MissDiscards(s: State, e: DelayEntry)
    requires s.flow.held == Some(e) && s.flow.phase == Handling(s.clock, Missing) && s.log.retries == []
    ensures Enabled(s, HandleStep) && Apply(s, HandleStep).log.retries == [Retry(e, s.clock, None)]
  {
  }

  // ------------------------------------------------- a clock that stands still

  /** In a drain whose lastTime is still the present time, with nothing left to do. */
  ghost predicate Drained(s: State, t: int) {
    s.flow == REST.(phase := Draining(t)) && s.clock == t && s.tables.conns == map[]
  }

  /** One more packet is delayed under the same time and handled by the same drain. */
  lemma OneMoreRetry(o: Origin, s: State, t: int, ends: Endpoints) returns (r: State)
    requires Reached(o, s) && Drained(s, t) && (o.Within? ==> o.t == t)
    ensures Reached(o, r) && Drained(r, t) && |r.log.retries| == |s.log.retries| + 1
  {
    var e;
    r, e := DelayPacket(o, s, ends);
    r := StepFrom(o, r, Consume);
    assert [e][1..] == [];
    assert r.flow == REST.(phase := Draining(t), held := Some(e));
    r := StepFrom(o, r, Consider);
    assert r.flow == REST.(phase := Handling(t, ByAddr), held := Some(e));
    r := MissInDrain(o, r, e, t);
  }

  lemma MissInDrain(o: Origin, s: State, e: DelayEntry, t: int) returns (r: State)
    requires Reached(o, s) && s.flow == REST.(phase := Handling(t, ByAddr), held := Some(e))
    requires s.clock == t && s.tables.conns == map[] && (o.Within? ==> o.t == t)
    ensures Reached(o, r) && Drained(r, t) && |r.log.retries| == |s.log.retries| + 1
  {
    r := StepFrom(o, s, HandleStep);
    assert r.flow == REST.(phase := Handling(t, Missing), held := Some(e));
    r := StepFrom(o, r, HandleStep);
  }

  lemma {:induction false} ManyRetries(o: Origin, s: State, t: int, ends: Endpoints, n: nat) returns (r: State)
    requires Reached(o, s) && Drained(s, t) && (o.Within? ==> o.t == t)
    ensures Reached(o, r) && Drained(r, t) && |r.log.retries| == |s.log.retries| + n
  {
    r := s;
    if n > 0 {
      r := ManyRetries(o, s, t, ends, n - 1);
      r := OneMoreRetry(o, r, t, ends);
    }
  }

  /** A rescan that lists nothing and whose scan fails. */
  lemma EmptyRescan(s: State) returns (r: State)
    requires Reachable(s) && s.flow == REST.(phase := s.flow.phase) && s.tables.conns == map[]
    requires s.flow.phase.Starting? || s.flow.phase.Waiting?
    ensures Reachable(r) && r.clock == s.clock && r.tables.conns == map[] && r.log.retries == s.log.retries
    ensures r.flow == REST.(phase := if s.flow.phase.Starting? then Waiting else Draining(s.clock))
  {
    r := Step(s, BeginRescan([]));
    r := Step(r, ScanFails);
    r := Step(r, EndRescan);
  }

  /** Without later stamps there is no bound: for every n some drain begins with
      nothing pending and handles n entries, all pushed while it runs. */
  lemma DrainUnboundedOnStillClock(ends: Endpoints, n: nat)
    ensures exists s: State, actions: seq<Action>, r: State ::
              && Reachable(s) && s.flow.phase == Draining(s.clock) && Pending(s, s.clock) == 0
              && DrainPath(s, actions, r, s.clock) && |r.log.retries| == |s.log.retries| + n
  {
    var s := Init(0, {}, 1, 1);
    assert Run(s, [], s);
    assert s.flow == REST.(phase := Starting);
    s := EmptyRescan(s);
    s := EmptyRescan(s);
    assert Pending(s, s.clock) == 0;
    assert DrainPath(s, [], s, s.clock);
    var r := ManyRetries(Within(s, s.clock), s, s.clock, ends, n);
    var actions :| DrainPath(s, actions, r, s.clock);
  }
}
