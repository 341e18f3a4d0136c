/** The mutable objects of process.go: a process with its traffic ring, and the
    controller that indexes, rescans and ranks processes. */
module Processes {
  import opened TrafficWindow
  import opened ProcessIndex

  class Process {
    const pid: string
    var inodes: seq<string>
    var inodeCount: int
    var ring: seq<TrafficEntry>
    var stats: TrafficStats

    constructor (pid: string, inodes: seq<string>)
      ensures this.pid == pid && this.inodes == inodes && inodeCount == |inodes|
      ensures ring == [] && stats == TrafficStats(0, 0, 0, 0)
    {
      this.pid := pid;
      this.inodes := inodes;
      inodeCount := |inodes|;
      ring := [];
      stats := TrafficStats(0, 0, 0, 0);
    }

    /** sortedProcesses.Less: this process ranks before the other. */
    predicate Less(other: Process)
      reads `stats, other`stats
    {
      stats.bytesIn + stats.bytesOut > other.stats.bytesIn + other.stats.bytesOut
    }

    method Shrink()
      modifies `ring
      ensures ring == Shrunk(old(ring))
    {
      if |ring| >= MAX_RING_SIZE {
        ring := ring[1..];
      }
    }

    method IncreaseInput(now: int, n: int)
      modifies `ring
      ensures ring == CreditRing(old(ring), Credit(now, Input, n))
    {
      if |ring| == 0 {
        ring := ring + [TrafficEntry(now, n, 0)];
        return;
      }
      Shrink();
      var item := ring[|ring| - 1];
      if item.timestamp == now {
        ring := ring[..|ring| - 1] + [item.(bytesIn := item.bytesIn + n)];
        return;
      }
      ring := ring + [TrafficEntry(now, n, 0)];
    }

    method IncreaseOutput(now: int, n: int)
      modifies `ring
      ensures ring == CreditRing(old(ring), Credit(now, Output, n))
    {
      if |ring| == 0 {
        ring := ring + [TrafficEntry(now, 0, n)];
        return;
      }
      Shrink();
      var item := ring[|ring| - 1];
      if item.timestamp == now {
        ring := ring[..|ring| - 1] + [item.(bytesOut := item.bytesOut + n)];
        return;
      }
      ring := ring + [TrafficEntry(now, 0, n)];
    }

    /** The figures of a window: of every history that led to the ring the totals, less
        what was shed of the seconds in the window, which is nothing when it is at most 59
        seconds long.  A window of 0 seconds keeps the old figures. */
    method AnalyseStats(now: int, sec: int)
      modifies `stats
      ensures stats == Analysed(ring, now, sec, old(stats))
      ensures sec == 0 ==> stats == old(stats)
      ensures sec != 0 ==> Figured(this, now, sec)
    {
      AnalysedReports(ring, now, sec, stats);
      if sec == 0 {
        return;
      }
      var thold := now - sec;
      var i, o := 0, 0;
      for k := 0 to |ring|
        invariant i == SumFrom(ring[..k], thold, Input)
        invariant o == SumFrom(ring[..k], thold, Output)
      {
        assert ring[..k + 1][..k] == ring[..k];
        var item := ring[k];
        if item.timestamp < thold {
          continue;
        }
        i := i + item.bytesIn;
        o := o + item.bytesOut;
      }
      assert ring[..|ring|] == ring;
      stats := TrafficStats(i, o, Quot(i, sec), Quot(o, sec));
      if sec <= 59 {
        ExactFigures(ring, stats, now, sec);
      }
    }
  }

  /** A process object as the scan makes it: nothing credited yet. */
  ghost predicate IsNew(p: Process, inodeCount: nat)
    reads p
  {
    p.ring == [] && p.stats == TrafficStats(0, 0, 0, 0) && p.inodeCount == inodeCount
  }

  /** A history that could have led to the ring under a monotone clock. */
  ghost predicate LeadsTo(h: seq<Credit>, ring: seq<TrafficEntry>, now: int) {
    RingOf(h) == ring && Monotone(h) && NoneAfter(h, now)
  }

  /** The figures are the totals of every history that could have led to the ring. */
  ghost predicate ReportsAll(ring: seq<TrafficEntry>, stats: TrafficStats, now: int, sec: int) {
    forall h :: LeadsTo(h, ring, now) ==>
      && stats.bytesIn == WindowTotal(h, now - sec, Input)
      && stats.bytesOut == WindowTotal(h, now - sec, Output)
  }

  lemma ExactFigures(ring: seq<TrafficEntry>, stats: TrafficStats, now: int, sec: int)
    requires sec <= 59
    requires stats.bytesIn == SumFrom(ring, now - sec, Input) && stats.bytesOut == SumFrom(ring, now - sec, Output)
    ensures ReportsAll(ring, stats, now, sec)
  {
    forall h | LeadsTo(h, ring, now)
      ensures stats.bytesIn == WindowTotal(h, now - sec, Input)
      ensures stats.bytesOut == WindowTotal(h, now - sec, Output)
    {
      RingWindow(ring, h, now, sec, Input);
      RingWindow(ring, h, now, sec, Output);
    }
  }

  // ------------------------------------------------------------- the ranking

  ghost predicate Descending(ps: seq<Process>)
    reads ps
  {
    forall i, j :: 0 <= i < j < |ps| ==>
      ps[i].stats.bytesIn + ps[i].stats.bytesOut >= ps[j].stats.bytesIn + ps[j].stats.bytesOut
  }

  predicate Distinct<T(==)>(ps: seq<T>) {
    forall i, j :: 0 <= i < j < |ps| ==> ps[i] != ps[j]
  }

  /** Puts `p` before the first process it outranks. */
  method Insert(ps: seq<Process>, p: Process) returns (r: seq<Process>)
    requires Descending(ps)
    ensures Descending(r)
    ensures multiset(r) == multiset(ps) + multiset{p}
  {
    var k := |ps|;
    while k > 0 && p.Less(ps[k - 1])
      invariant 0 <= k <= |ps|
      invariant forall i :: k <= i < |ps| ==> p.Less(ps[i])
    {
      k := k - 1;
    }
    r := Spliced(ps, k, p);
    SplicedOrder(ps, k, p);
    SplicedElements(ps, k, p);
  }

  function Spliced(ps: seq<Process>, k: nat, p: Process): seq<Process>
    requires k <= |ps|
  {
    ps[..k] + [p] + ps[k..]
  }

  lemma SplicedOrder(ps: seq<Process>, k: nat, p: Process)
    requires k <= |ps| && Descending(ps)
    requires forall i :: k <= i < |ps| ==> p.Less(ps[i])
    requires k > 0 ==> !p.Less(ps[k - 1])
    ensures Descending(Spliced(ps, k, p))
  {
  }

  lemma SplicedElements(ps: seq<Process>, k: nat, p: Process)
    requires k <= |ps|
    ensures multiset(Spliced(ps, k, p)) == multiset(ps) + multiset{p}
  {
    assert ps == ps[..k] + ps[k..];
  }

  /** The contract of sort.Sort under Less: a descending permutation. */
  method SortByTotal(ps: seq<Process>) returns (r: seq<Process>)
    ensures Descending(r) && multiset(r) == multiset(ps)
  {
    r := [];
    for k := 0 to |ps|
      invariant Descending(r) && multiset(r) == multiset(ps[..k])
    {
      assert ps[..k + 1] == ps[..k] + [ps[k]];
      r := Insert(r, ps[k]);
    }
    assert ps[..|ps|] == ps;
  }

  /** `r` is a top-`limit` answer for the processes `all`. */
  ghost predicate TopK(r: seq<Process>, all: set<Process>, limit: nat)
    reads r, all
  {
    && |r| == (if limit < |all| then limit else |all|)
    && Distinct(r)
    && (forall p :: p in r ==> p in all)
    && Descending(r)
    && forall p, q :: p in all && p !in r && q in r ==>
         p.stats.bytesIn + p.stats.bytesOut <= q.stats.bytesIn + q.stats.bytesOut
  }

  /** In every pair of histories that could have led to the rings, the first credited at
      least as many bytes in the window as the second. */
  ghost predicate BusierThan(a: seq<TrafficEntry>, b: seq<TrafficEntry>, now: int, sec: int) {
    forall g, h :: LeadsTo(g, a, now) && LeadsTo(h, b, now) ==>
      WindowTotal(g, now - sec, Input) + WindowTotal(g, now - sec, Output) >=
      WindowTotal(h, now - sec, Input) + WindowTotal(h, now - sec, Output)
  }

  /** The same of the entries the rings still hold. */
  predicate FullerThan(a: seq<TrafficEntry>, b: seq<TrafficEntry>, now: int, sec: int) {
    SumFrom(a, now - sec, Input) + SumFrom(a, now - sec, Output) >=
    SumFrom(b, now - sec, Input) + SumFrom(b, now - sec, Output)
  }

  lemma FullerIsBusier(a: seq<TrafficEntry>, b: seq<TrafficEntry>, now: int, sec: int)
    requires FullerThan(a, b, now, sec) && sec <= 59
    ensures BusierThan(a, b, now, sec)
  {
    forall g, h | LeadsTo(g, a, now) && LeadsTo(h, b, now)
      ensures WindowTotal(g, now - sec, Input) + WindowTotal(g, now - sec, Output) >=
              WindowTotal(h, now - sec, Input) + WindowTotal(h, now - sec, Output)
    {
      RingWindow(a, g, now, sec, Input);
      RingWindow(a, g, now, sec, Output);
      RingWindow(b, h, now, sec, Input);
      RingWindow(b, h, now, sec, Output);
    }
  }

  /** The answer is ordered by, and leaves out nobody before, what the rings hold of the
      window; for at most 59 seconds, what the processes were ever credited in it. */
  ghost predicate RankedByTraffic(r: seq<Process>, all: set<Process>, now: int, sec: int)
    reads r, all
  {
    && (forall i, j :: 0 <= i < j < |r| ==> Outranks(r[i].ring, r[j].ring, now, sec))
    && (forall p, q :: p in all && p !in r && q in r ==> Outranks(q.ring, p.ring, now, sec))
  }

  ghost predicate Outranks(a: seq<TrafficEntry>, b: seq<TrafficEntry>, now: int, sec: int) {
    FullerThan(a, b, now, sec) && (sec <= 59 ==> BusierThan(a, b, now, sec))
  }

  /** The figures are what analyseStats makes of the ring. */
  ghost predicate Figured(p: Process, now: int, sec: int)
    reads p
  {
    && HasSums(p, now, sec) && Reports(p.ring, p.stats, now, sec)
    && (sec <= 59 ==> ReportsAll(p.ring, p.stats, now, sec))
  }

  ghost predicate HasSums(p: Process, now: int, sec: int)
    reads p
  {
    p.stats.bytesIn == SumFrom(p.ring, now - sec, Input) && p.stats.bytesOut == SumFrom(p.ring, now - sec, Output)
  }

  lemma SumsOutrank(p: Process, q: Process, now: int, sec: int)
    requires HasSums(p, now, sec) && HasSums(q, now, sec)
    requires p.stats.bytesIn + p.stats.bytesOut >= q.stats.bytesIn + q.stats.bytesOut
    ensures Outranks(p.ring, q.ring, now, sec)
  {
    if sec <= 59 {
      FullerIsBusier(p.ring, q.ring, now, sec);
    }
  }

  lemma TopKByTraffic(r: seq<Process>, all: set<Process>, limit: nat, now: int, sec: int)
    requires TopK(r, all, limit) && forall p :: p in all ==> HasSums(p, now, sec)
    ensures RankedByTraffic(r, all, now, sec)
  {
    forall i, j | 0 <= i < j < |r| ensures Outranks(r[i].ring, r[j].ring, now, sec) {
      SumsOutrank(r[i], r[j], now, sec);
    }
    forall p, q | p in all && p !in r && q in r ensures Outranks(q.ring, p.ring, now, sec) {
      SumsOutrank(q, p, now, sec);
    }
  }

  lemma DistinctFromMultiset<T>(s: seq<T>, all: seq<T>)
    requires multiset(s) == multiset(all) && Distinct(all)
    ensures Distinct(s)
  {
    forall i, j | 0 <= i < j < |s| ensures s[i] != s[j] {
      if s[i] == s[j] {
        TwiceCounted(s, i, j);
        OnceCounted(all, s[i]);
      }
    }
  }

  lemma TwiceCounted<T>(s: seq<T>, i: nat, j: nat)
    requires i < j < |s| && s[i] == s[j]
    ensures multiset(s)[s[i]] >= 2
  {
    assert s == s[..i] + [s[i]] + s[i + 1..j] + [s[j]] + s[j + 1..];
  }

  lemma {:induction false} OnceCounted<T>(s: seq<T>, x: T)
    requires Distinct(s)
    ensures multiset(s)[x] <= 1
  {
    if s != [] {
      var p := s[..|s| - 1];
      OnceCounted(p, x);
      assert s == p + [s[|s| - 1]];
      if s[|s| - 1] == x {
        assert x !in p;
      }
    }
  }

  lemma {:induction false} DistinctLength<T>(s: seq<T>, all: set<T>)
    requires Distinct(s) && forall x :: x in s <==> x in all
    ensures |s| == |all|
  {
    if s == [] {
      assert all == {};
    } else {
      var p, last := s[..|s| - 1], s[|s| - 1];
      assert s == p + [last];
      assert last !in p;
      DistinctLength(p, all - {last});
    }
  }

  // ----------------------------------------------------------- the controller

  datatype RankResult = Refused(message: string) | Ranked(processes: seq<Process>)

  class ProcessController {
    var dict: map<string, Process>
    var inodePidMap: map<string, string>
    var revision: int
    var sortedProcesses: seq<Process>

    /** Every process is filed under its own pid. */
    ghost predicate Valid()
      reads `dict
    {
      forall pid :: pid in dict ==> dict[pid].pid == pid
    }

    constructor ()
      ensures Valid() && dict == map[] && inodePidMap == map[] && sortedProcesses == []
    {
      dict := map[];
      inodePidMap := map[];
      revision := 0;
      sortedProcesses := [];
    }

    /** A process, or nothing when the inode or its pid is unknown. */
    function Lookup(inode: string): (p: Process?)
      reads this
    {
      if inode in inodePidMap && inodePidMap[inode] in dict then dict[inodePidMap[inode]] else null
    }

    method GetProcessByInode(inode: string) returns (p: Process?)
      ensures p == Lookup(inode)
      ensures p != null <==> inode in inodePidMap && inodePidMap[inode] in dict
      ensures p != null ==> p == dict[inodePidMap[inode]]
    {
      if inode !in inodePidMap {
        return null;
      }
      var pid := inodePidMap[inode];
      if pid !in dict {
        return null;
      }
      return dict[pid];
    }

    /** GetRank: the leading `limit` of the last sort, as the live objects. */
    method GetRank(limit: nat) returns (r: seq<Process>)
      ensures r == if |sortedProcesses| > limit then sortedProcesses[..limit] else sortedProcesses
    {
      r := sortedProcesses;
      if |r| > limit {
        r := sortedProcesses[..limit];
      }
    }

    /** The loop of Sort: analyses every process, in any order. */
    method AnalyseAll(now: int, sec: int) returns (pos: seq<Process>)
      requires Valid()
      modifies dict.Values`stats
      ensures Valid()
      ensures sec == 0 ==> forall p :: p in dict.Values ==> p.stats == old(p.stats)
      ensures sec != 0 ==> forall p :: p in dict.Values ==> Figured(p, now, sec)
      ensures Distinct(pos) && forall p :: p in pos <==> p in dict.Values
    {
      var todo := dict.Keys;
      pos := [];
      while todo != {}
        invariant todo <= dict.Keys && Valid()
        invariant sec == 0 ==> forall p :: p in dict.Values ==> p.stats == old(p.stats)
        invariant sec != 0 ==> forall p :: p in dict.Values && p.pid !in todo ==> Figured(p, now, sec)
        invariant forall p :: p in pos <==> p in dict.Values && p.pid !in todo
        invariant Distinct(pos)
        decreases |todo|
      {
        var pid :| pid in todo;
        var po := dict[pid];
        po.AnalyseStats(now, sec);
        pos := pos + [po];
        todo := todo - {pid};
      }
    }

    /** Sort: analyse every process and rank them all. */
    method Sort(now: int, sec: int) returns (r: seq<Process>)
      requires Valid()
      modifies `sortedProcesses, dict.Values`stats
      ensures Valid() && r == sortedProcesses
      ensures dict == old(dict) && inodePidMap == old(inodePidMap)
      ensures sec == 0 ==> forall p :: p in dict.Values ==> p.stats == old(p.stats)
      ensures sec != 0 ==> forall p :: p in dict.Values ==> Figured(p, now, sec)
      ensures Descending(r) && Distinct(r) && |r| == |dict.Values|
      ensures forall p :: p in r <==> p in dict.Values
    {
      var pos := AnalyseAll(now, sec);
      r := SortByTotal(pos);
      SameElements(r, pos);
      DistinctFromMultiset(r, pos);
      DistinctLength(r, dict.Values);
      sortedProcesses := r;
    }

    /** Rescan, given the pids and inodes GetProcesses found.  Each of the three
        loops runs over a map in any order.  Afterwards exactly the scanned pids
        are indexed, under the scanned inodes; a surviving pid keeps its object
        and its ring; an inode looks up a process that lists it, or none does. */
    method Rescan(scan: Scan) returns (ghost order: seq<string>)
      requires Valid()
      modifies this, dict.Values`inodes
      ensures Valid() && revision == old(revision) + 1 && sortedProcesses == old(sortedProcesses)
      ensures dict.Keys == scan.Keys
      ensures forall pid :: pid in scan ==> dict[pid].inodes == scan[pid]
      ensures forall pid :: pid in scan && pid in old(dict) ==>
                dict[pid] == old(dict)[pid]
      ensures forall pid :: pid in scan && pid in old(dict) ==> dict[pid].inodeCount == old(dict[pid].inodeCount)
      ensures forall pid :: pid in scan && pid !in old(dict) ==> IsNew(dict[pid], |scan[pid]|)
      ensures IsOrder(order, scan.Keys) && inodePidMap == BuildIndex(scan, order)
      ensures forall inode :: Lookup(inode) != null <==> exists pid :: pid in scan && inode in scan[pid]
      ensures forall inode :: Lookup(inode) != null ==> inode in Lookup(inode).inodes
    {
      revision := revision + 1;
      AddNew(scan);
      DeleteOld(scan.Keys);
      inodePidMap, order := Reindex(scan);
      IndexLookup(scan, order);
    }

    lemma IndexLookup(scan: Scan, order: seq<string>)
      requires dict.Keys == scan.Keys && forall pid :: pid in scan ==> dict[pid].inodes == scan[pid]
      requires IsOrder(order, scan.Keys) && inodePidMap == BuildIndex(scan, order)
      ensures forall inode :: Lookup(inode) != null <==> exists pid :: pid in scan && inode in scan[pid]
      ensures forall inode :: Lookup(inode) != null ==> inode in Lookup(inode).inodes
    {
      forall inode
        ensures Lookup(inode) != null <==> exists pid :: pid in scan && inode in scan[pid]
        ensures Lookup(inode) != null ==> inode in Lookup(inode).inodes
      {
        IndexAgreesWithScan(scan, order, inode);
      }
    }

    method AddNew(scan: Scan)
      requires Valid()
      modifies `dict, dict.Values`inodes
      ensures Valid()
      ensures forall pid :: pid in dict <==> pid in old(dict) || pid in scan
      ensures forall pid :: pid in old(dict) ==> dict[pid] == old(dict)[pid]
      ensures forall pid :: pid in scan && pid !in old(dict) ==> fresh(dict[pid]) && IsNew(dict[pid], |scan[pid]|)
      ensures forall pid :: pid in scan ==> dict[pid].inodes == scan[pid]
    {
      var todo := scan.Keys;
      while todo != {}
        invariant todo <= scan.Keys && Valid()
        invariant forall pid :: pid in dict <==> pid in old(dict) || (pid in scan && pid !in todo)
        invariant forall pid :: pid in old(dict) ==> dict[pid] == old(dict)[pid]
        invariant forall pid :: pid in dict && pid !in old(dict) ==>
                    fresh(dict[pid]) && IsNew(dict[pid], |scan[pid]|)
        invariant forall pid :: pid in scan && pid !in todo ==> dict[pid].inodes == scan[pid]
        decreases |todo|
      {
        var pid :| pid in todo;
        AddOne(pid, scan[pid]);
        todo := todo - {pid};
      }
    }

    /** An indexed process keeps its object and takes the scanned inodes, but not
        the scanned inode count; a new one is filed. */
    method AddOne(pid: string, inodes: seq<string>)
      requires Valid()
      modifies `dict, (if pid in dict then {dict[pid]} else {})`inodes
      ensures Valid()
      ensures forall q :: q in dict <==> q in old(dict) || q == pid
      ensures forall q :: q in old(dict) ==>
                dict[q] == old(dict)[q] && (q != pid ==> dict[q].inodes == old(dict[q].inodes))
      ensures dict[pid].inodes == inodes
      ensures pid !in old(dict) ==> fresh(dict[pid]) && IsNew(dict[pid], |inodes|)
    {
      if pid in dict {
        var pp := dict[pid];
        pp.inodes := inodes;
      } else {
        var po := new Process(pid, inodes);
        dict := dict[pid := po];
      }
    }

    method DeleteOld(scanned: set<string>)
      requires Valid()
      modifies `dict
      ensures Valid()
      ensures forall pid :: pid in dict <==> pid in old(dict) && pid in scanned
      ensures forall pid :: pid in dict ==> dict[pid] == old(dict)[pid]
    {
      var todo := dict.Keys;
      while todo != {}
        invariant todo <= dict.Keys <= old(dict).Keys
        invariant forall pid :: pid in dict ==> dict[pid] == old(dict)[pid]
        invariant forall pid :: pid in old(dict) && pid !in todo ==> (pid in dict <==> pid in scanned)
        decreases |todo|
      {
        var pid :| pid in todo;
        todo := todo - {pid};
        if pid !in scanned {
          dict := dict - {pid};
        }
      }
    }

    method Reindex(scan: Scan) returns (index: map<string, string>, ghost order: seq<string>)
      ensures IsOrder(order, scan.Keys) && index == BuildIndex(scan, order)
    {
      var todo := scan.Keys;
      index, order := map[], [];
      while todo != {}
        invariant todo <= scan.Keys
        invariant IsOrder(order, scan.Keys - todo)
        invariant index == BuildIndex(scan, order)
        decreases |todo|
      {
        var pid :| pid in todo;
        index := Reassign(index, pid, scan[pid]);
        ghost var visited := order;
        order := order + [pid];
        assert order[..|order| - 1] == visited;
        todo := todo - {pid};
      }
    }

    static method Reassign(index: map<string, string>, pid: string, inodes: seq<string>)
      returns (r: map<string, string>)
      ensures r == Indexed(index, pid, inodes)
    {
      r := index;
      for k := 0 to |inodes|
        invariant r == Indexed(index, pid, inodes[..k])
      {
        assert inodes[..k + 1][..k] == inodes[..k];
        r := r[inodes[k] := pid];
      }
      assert inodes[..|inodes|] == inodes;
    }

    /** Netflow.GetProcessRank: Sort, then GetRank. */
    method GetProcessRank(limit: nat, recentSeconds: int, now: int) returns (r: RankResult)
      requires Valid()
      modifies `sortedProcesses, dict.Values`stats
      ensures Valid() && dict == old(dict)
      ensures r.Refused? <==> recentSeconds > 61
      ensures r.Refused? ==> unchanged(this) && forall p :: p in dict.Values ==> p.stats == old(p.stats)
      ensures r.Ranked? ==> TopK(r.processes, dict.Values, limit)
      ensures r.Ranked? && recentSeconds == 0 ==> forall p :: p in dict.Values ==> p.stats == old(p.stats)
      ensures r.Ranked? && recentSeconds != 0 ==>
                && RankedByTraffic(r.processes, dict.Values, now, recentSeconds)
                && forall p :: p in dict.Values ==> Reports(p.ring, p.stats, now, recentSeconds)
      ensures r.Ranked? && recentSeconds != 0 && recentSeconds <= 59 ==>
                forall p :: p in dict.Values ==> ReportsAll(p.ring, p.stats, now, recentSeconds)
    {
      if recentSeconds > MAX_RING_SIZE {
        return Refused("windows interval must <= 60");
      }
      var sorted := Sort(now, recentSeconds);
      var prank := GetRank(limit);
      PrefixIsTopK(sorted, dict.Values, limit);
      if recentSeconds != 0 {
        TopKByTraffic(prank, dict.Values, limit, now, recentSeconds);
      }
      r := Ranked(prank);
    }
  }

  lemma SameElements<T>(a: seq<T>, b: seq<T>)
    requires multiset(a) == multiset(b)
    ensures forall x :: x in a <==> x in b
  {
    forall x ensures x in a <==> x in b {
      assert x in a <==> x in multiset(a);
      assert x in b <==> x in multiset(b);
    }
  }

  /** A prefix of a descending listing of all processes is a top-k answer. */
  lemma PrefixIsTopK(sorted: seq<Process>, all: set<Process>, limit: nat)
    requires Descending(sorted) && Distinct(sorted) && |sorted| == |all|
    requires forall p :: p in sorted <==> p in all
    ensures TopK(if |sorted| > limit then sorted[..limit] else sorted, all, limit)
  {
  }
}
