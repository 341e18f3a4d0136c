/** The inode index that Rescan rebuilds from a scan of the processes.  A scan
    gives the socket inodes of each process; Go iterates over it in any order. */
module ProcessIndex {

  /** pid to the inodes its file descriptors name */
  type Scan = map<string, seq<string>>

  /** `order` visits each key exactly once. */
  ghost predicate IsOrder(order: seq<string>, keys: set<string>) {
    && (forall k :: k in order <==> k in keys)
    && forall i, j :: 0 <= i < j < |order| ==> order[i] != order[j]
  }

  function Indexed(index: map<string, string>, pid: string, inodes: seq<string>): map<string, string> {
    if inodes == [] then index else Indexed(index, pid, inodes[..|inodes| - 1])[inodes[|inodes| - 1] := pid]
  }

  /** The inode-to-pid map built by visiting the scanned processes in `order`. */
  function BuildIndex(scan: Scan, order: seq<string>): map<string, string>
    requires forall pid :: pid in order ==> pid in scan
  {
    if order == [] then map[]
    else
      var pid := order[|order| - 1];
      Indexed(BuildIndex(scan, order[..|order| - 1]), pid, scan[pid])
  }

  lemma {:induction false} IndexedMeaning(index: map<string, string>, pid: string, inodes: seq<string>, inode: string)
    ensures inode in inodes ==> inode in Indexed(index, pid, inodes) && Indexed(index, pid, inodes)[inode] == pid
    ensures inode !in inodes ==>
              (inode in Indexed(index, pid, inodes) <==> inode in index) &&
              (inode in index ==> Indexed(index, pid, inodes)[inode] == index[inode])
  {
    if inodes != [] {
      var p := inodes[..|inodes| - 1];
      IndexedMeaning(index, pid, p, inode);
      assert inodes == p + [inodes[|inodes| - 1]];
    }
  }

  /** Some visited process lists the inode. */
  predicate ListedBy(scan: Scan, order: seq<string>, inode: string)
    requires forall pid :: pid in order ==> pid in scan
  {
    exists i :: 0 <= i < |order| && inode in scan[order[i]]
  }

  lemma {:induction false} PartialIndex(scan: Scan, order: seq<string>, inode: string)
    requires forall pid :: pid in order ==> pid in scan
    ensures inode in BuildIndex(scan, order) <==> ListedBy(scan, order, inode)
    ensures inode in BuildIndex(scan, order) ==>
              var pid := BuildIndex(scan, order)[inode]; pid in order && inode in scan[pid]
  {
    if order != [] {
      var p, last := order[..|order| - 1], order[|order| - 1];
      PartialIndex(scan, p, inode);
      IndexedMeaning(BuildIndex(scan, p), last, scan[last], inode);
      if inode in scan[last] {
        assert ListedBy(scan, order, inode);
      } else if ListedBy(scan, p, inode) {
        var i :| 0 <= i < |p| && inode in scan[p[i]];
        assert order[i] == p[i];
      }
    }
  }

  /** For every iteration order the index knows exactly the inodes some scanned
      process lists, and names a process that lists it, even when several do. */
  lemma IndexAgreesWithScan(scan: Scan, order: seq<string>, inode: string)
    requires IsOrder(order, scan.Keys)
    ensures inode in BuildIndex(scan, order) <==> exists pid :: pid in scan && inode in scan[pid]
    ensures inode in BuildIndex(scan, order) ==>
              var pid := BuildIndex(scan, order)[inode]; pid in scan && inode in scan[pid]
  {
    PartialIndex(scan, order, inode);
    if pid :| pid in scan && inode in scan[pid] {
      var i :| 0 <= i < |order| && order[i] == pid;
      assert ListedBy(scan, order, inode);
    }
  }
}
