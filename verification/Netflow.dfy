/** The operations of netflow.go on its mutable objects, run one at a time.  The
    interleavings of these operations are the subject of Pipeline. */
module Netflows {
  import opened Options
  import opened TrafficWindow
  import opened ConnectionMap
  import opened ProcessIndex
  import opened Processes
  import opened Text
  import opened Netstat
  import opened Pipeline
  import opened PipelineDelay

  // ------------------------------------------------------------- rescanConns

  /** What each line yields. */
  function Rows(lines: seq<string>): (rows: seq<LineResult>)
    ensures |rows| == |lines|
  {
    seq(|lines|, i requires 0 <= i < |lines| => GetConnectionItem(lines[i]))
  }

  /** The connections among the first n rows. */
  function Items(rows: seq<LineResult>, n: nat): seq<ConnectionItem>
    requires n <= |rows|
  {
    if n == 0 then []
    else Items(rows, n - 1) + if rows[n - 1].Item? then [rows[n - 1].conn] else []
  }

  /** Both keys of each connection, with the times the clock shows then. */
  function Touches(conns: seq<ConnectionItem>, clock: nat -> int, n: nat): seq<Touch<string>>
    requires n <= |conns|
  {
    if n == 0 then []
    else
      var c := conns[n - 1];
      Touches(conns, clock, n - 1) +
      [Touch(c.addr, c.inode, clock(2 * n - 2)), Touch(c.reverseAddr, c.inode, clock(2 * n - 1))]
  }

  lemma {:induction false} TouchesAgree(a: seq<ConnectionItem>, b: seq<ConnectionItem>, clock: nat -> int, n: nat)
    requires n <= |a| && n <= |b| && a[..n] == b[..n]
    ensures Touches(a, clock, n) == Touches(b, clock, n)
  {
    if n > 0 {
      assert a[n - 1] == a[..n][n - 1] && b[n - 1] == b[..n][n - 1];
      assert a[..n - 1] == a[..n][..n - 1] && b[..n - 1] == b[..n][..n - 1];
      TouchesAgree(a, b, clock, n - 1);
    }
  }

  lemma ListAllTwo(dict: map<string, Entry>, ts: seq<Touch<string>>, x: Touch<string>, y: Touch<string>)
    ensures ListAll(dict, ts + [x, y]) == Listed(Listed(ListAll(dict, ts), x), y)
  {
    assert (ts + [x, y])[..|ts| + 1] == ts + [x];
    assert (ts + [x])[..|ts|] == ts;
  }

  /** One line's worth of rescanConns. */
  method ListConn(table: Mapping, conn: ConnectionItem, now1: int, now2: int)
    modifies table
    ensures table.dict == Listed(Listed(old(table.dict), Touch(conn.addr, conn.inode, now1)),
                                 Touch(conn.reverseAddr, conn.inode, now2))
  {
    var found := table.Contains(conn.addr, conn.inode);
    if !found {
      table.Add(conn.addr, conn.inode, now1);
    }
    found := table.Contains(conn.reverseAddr, conn.inode);
    if !found {
      table.Add(conn.reverseAddr, conn.inode, now2);
    }
  }

  /** The row is a connection one of whose keys this is. */
  predicate RowTouches(row: LineResult, key: string) {
    row.Item? && (row.conn.addr == key || row.conn.reverseAddr == key)
  }

  /** Row i is the last of the first n that touches the key. */
  ghost predicate LastRow(rows: seq<LineResult>, n: nat, i: nat, key: string)
    requires n <= |rows|
  {
    i < n && RowTouches(rows[i], key) && forall j :: i < j < n ==> !RowTouches(rows[j], key)
  }

  /** A key that some of the first n rows touch is in the table under the inode of the
      last of them; any other key is there exactly as it was. */
  ghost predicate KeyListed(dict: map<string, Entry>, start: map<string, Entry>, rows: seq<LineResult>, n: nat,
                            key: string)
    requires n <= |rows|
  {
    && (forall i: nat :: LastRow(rows, n, i, key) ==> Exists(dict, key, rows[i].conn.inode))
    && (Untouched(rows, n, key) ==> SameEntry(dict, start, key))
  }

  ghost predicate SameEntry(a: map<string, Entry>, b: map<string, Entry>, key: string) {
    (key in a <==> key in b) && (key in a ==> a[key] == b[key])
  }

  ghost predicate Untouched(rows: seq<LineResult>, n: nat, key: string)
    requires n <= |rows|
  {
    forall i: nat :: i < n ==> !RowTouches(rows[i], key)
  }

  ghost predicate RowsListed(dict: map<string, Entry>, start: map<string, Entry>, rows: seq<LineResult>, n: nat)
    requires n <= |rows|
  {
    forall key :: KeyListed(dict, start, rows, n, key)
  }

  /** Of the rows that touch a key one is the last. */
  lemma {:induction false} LastRowExists(rows: seq<LineResult>, n: nat, i: nat, key: string) returns (k: nat)
    requires n <= |rows| && i < n && RowTouches(rows[i], key)
    ensures i <= k && LastRow(rows, n, k, key)
    decreases n - i
  {
    if j: nat :| i < j < n && RowTouches(rows[j], key) {
      k := LastRowExists(rows, n, j, key);
    } else {
      k := i;
    }
  }

  /** A key some row touches is in the table, under the inode of the last such row. */
  lemma TouchedKeyIsThere(dict: map<string, Entry>, start: map<string, Entry>, rows: seq<LineResult>, n: nat, i: nat,
                          key: string)
    requires i < n <= |rows| && RowsListed(dict, start, rows, n) && RowTouches(rows[i], key)
    ensures exists k: nat :: i <= k && LastRow(rows, n, k, key) && key in dict && dict[key].value == rows[k].conn.inode
  {
    var k := LastRowExists(rows, n, i, key);
    assert KeyListed(dict, start, rows, n, key);
  }

  function BothListed(dict: map<string, Entry>, c: ConnectionItem, now1: int, now2: int): map<string, Entry> {
    Listed(Listed(dict, Touch(c.addr, c.inode, now1)), Touch(c.reverseAddr, c.inode, now2))
  }

  lemma BothListedAt(dict: map<string, Entry>, c: ConnectionItem, now1: int, now2: int, key: string)
    ensures var d := BothListed(dict, c, now1, now2);
            if c.addr == key || c.reverseAddr == key then Exists(d, key, c.inode) else SameEntry(d, dict, key)
  {
  }

  /** What the next row leaves under a key. */
  ghost predicate NextAt(dict: map<string, Entry>, d: map<string, Entry>, row: LineResult, key: string) {
    if RowTouches(row, key) then Exists(d, key, row.conn.inode) else SameEntry(d, dict, key)
  }

  lemma TouchedAfter(dict: map<string, Entry>, d: map<string, Entry>, start: map<string, Entry>,
                     rows: seq<LineResult>, n: nat, m: nat, key: string)
    requires m == n + 1 <= |rows| && NextAt(dict, d, rows[n], key) && RowTouches(rows[n], key)
    ensures KeyListed(d, start, rows, m, key)
  {
    forall i: nat | LastRow(rows, m, i, key) ensures Exists(d, key, rows[i].conn.inode) {
      LastRowBefore(rows, n, i, key);
    }
  }

  lemma OthersAfter(dict: map<string, Entry>, d: map<string, Entry>, start: map<string, Entry>,
                    rows: seq<LineResult>, n: nat, m: nat, key: string)
    requires m == n + 1 <= |rows| && KeyListed(dict, start, rows, n, key) && NextAt(dict, d, rows[n], key)
    requires !RowTouches(rows[n], key)
    ensures KeyListed(d, start, rows, m, key)
  {
    SameLastRows(rows, n, m, key);
  }

  lemma SameLastRows(rows: seq<LineResult>, n: nat, m: nat, key: string)
    requires m == n + 1 <= |rows| && !RowTouches(rows[n], key)
    ensures forall i: nat :: LastRow(rows, m, i, key) ==> LastRow(rows, n, i, key)
    ensures Untouched(rows, n, key) ==> Untouched(rows, m, key)
    ensures Untouched(rows, m, key) ==> Untouched(rows, n, key)
  {
    forall i: nat | LastRow(rows, m, i, key) ensures LastRow(rows, n, i, key) {
      LastRowBefore(rows, n, i, key);
    }
  }

  lemma LastRowBefore(rows: seq<LineResult>, n: nat, i: nat, key: string)
    requires n < |rows| && LastRow(rows, n + 1, i, key)
    ensures if RowTouches(rows[n], key) then i == n else LastRow(rows, n, i, key)
  {
  }

  lemma RowsListedAfter(dict: map<string, Entry>, start: map<string, Entry>, rows: seq<LineResult>, n: nat,
                        now1: int, now2: int)
    requires n < |rows| && RowsListed(dict, start, rows, n)
    ensures var d := if rows[n].Item? then BothListed(dict, rows[n].conn, now1, now2) else dict;
            RowsListed(d, start, rows, n + 1)
  {
    var d := if rows[n].Item? then BothListed(dict, rows[n].conn, now1, now2) else dict;
    var m := n + 1;
    forall key ensures KeyListed(d, start, rows, m, key) {
      assert KeyListed(dict, start, rows, n, key);
      if rows[n].Item? {
        BothListedAt(dict, rows[n].conn, now1, now2, key);
      }
      if RowTouches(rows[n], key) {
        TouchedAfter(dict, d, start, rows, n, m, key);
      } else {
        OthersAfter(dict, d, start, rows, n, m, key);
      }
    }
  }

  /** The keys that the first n lines touch, as getConnectionItem reads them, are in the
      table under the inode of the last line touching them; the others as they were. */
  ghost predicate LinesListed(dict: map<string, Entry>, start: map<string, Entry>, lines: seq<string>, n: nat) {
    forall rows: seq<LineResult> ::
      |rows| == |lines| && (forall i :: 0 <= i < |lines| ==> rows[i] == GetConnectionItem(lines[i])) && n <= |rows| ==>
        RowsListed(dict, start, rows, n)
  }

  lemma RowsAreLines(dict: map<string, Entry>, start: map<string, Entry>, lines: seq<string>, n: nat)
    requires n <= |lines| && RowsListed(dict, start, Rows(lines), n)
    ensures LinesListed(dict, start, lines, n)
  {
    forall rows: seq<LineResult> |
      |rows| == |lines| && (forall i :: 0 <= i < |lines| ==> rows[i] == GetConnectionItem(lines[i])) && n <= |rows|
      ensures RowsListed(dict, start, rows, n)
    {
      assert rows == Rows(lines);
    }
  }

  /** rescanConns on the lines after the header.  It stops at a line with too few
      columns, where the original panics.  Each key a line touches then holds the inode of
      the last such line, and every lookup answers as if both keys of every connection had
      been added without looking. */
  method RescanConns(table: Mapping, lines: seq<string>, clock: nat -> int) returns (done: nat)
    modifies table
    ensures done <= |lines| && StopsAtPanic(Rows(lines), done)
    ensures LinesListed(table.dict, old(table.dict), lines, done)
    ensures var conns := Items(Rows(lines), done);
            && table.dict == ListAll(old(table.dict), Touches(conns, clock, |conns|))
            && SameValues(table.dict, AddAll(old(table.dict), Touches(conns, clock, |conns|)))
  {
    done := ListRows(table, table.dict, Rows(lines), clock);
    ghost var conns := Items(Rows(lines), done);
    ConditionalRefinesBlind(old(table.dict), Touches(conns, clock, |conns|));
    RowsAreLines(table.dict, old(table.dict), lines, done);
  }

  /** After a rescan of lines among which one is a printed row, that is not skipped, the key
      of a packet of its connection looks up its inode, in either direction, unless a later
      line touches that key. */
  lemma PrintedRowIsFound(dict: map<string, Entry>, start: map<string, Entry>, lines: seq<string>, n: nat, i: nat,
                          r: Row, pads: seq<nat>, last: nat, key: string)
    requires i < n <= |lines| && LinesListed(dict, start, lines, n)
    requires PlainColumns(r) && Pads(PrintFields(r), pads) && lines[i] == Line(PrintFields(r), pads, last)
    requires (r.state == 1 || r.state == 10) && r.ends.peerIP != IPv4(0, 0, 0, 0)
    requires r.tx < 0x8000_0000 && r.rx < 0x8000_0000
    requires key == SpliceAddr(r.ends) || key == SpliceAddr(r.ends.Reversed())
    requires forall j :: i < j < n ==> !RowTouches(Rows(lines)[j], key)
    ensures key in dict && dict[key].value == Dec(r.inode)
  {
    LinesAreRows(dict, start, lines, n);
    RowAt(lines, i);
    ParsingUndoesPrinting(r, pads, last);
    RowOfPrinted(dict, start, Rows(lines), n, i, r, key);
  }

  lemma RowAt(lines: seq<string>, i: nat)
    requires i < |lines|
    ensures Rows(lines)[i] == GetConnectionItem(lines[i])
  {
  }

  lemma LinesAreRows(dict: map<string, Entry>, start: map<string, Entry>, lines: seq<string>, n: nat)
    requires n <= |lines| && LinesListed(dict, start, lines, n)
    ensures RowsListed(dict, start, Rows(lines), n)
  {
  }

  lemma RowOfPrinted(dict: map<string, Entry>, start: map<string, Entry>, rows: seq<LineResult>, n: nat, i: nat,
                     r: Row, key: string)
    requires i < n <= |rows| && RowsListed(dict, start, rows, n) && rows[i] == Expected(r)
    requires (r.state == 1 || r.state == 10) && r.ends.peerIP != IPv4(0, 0, 0, 0)
    requires r.tx < 0x8000_0000 && r.rx < 0x8000_0000
    requires key == SpliceAddr(r.ends) || key == SpliceAddr(r.ends.Reversed())
    requires forall j :: i < j < n ==> !RowTouches(rows[j], key)
    ensures key in dict && dict[key].value == Dec(r.inode)
  {
    assert RowTouches(rows[i], key) && rows[i].conn.inode == Dec(r.inode);
    assert KeyListed(dict, start, rows, n, key);
    assert LastRow(rows, n, i, key);
  }

  ghost predicate StopsAtPanic(rows: seq<LineResult>, done: nat) {
    && (forall i :: 0 <= i < done && i < |rows| ==> !rows[i].Panic?)
    && (done < |rows| ==> rows[done].Panic?)
  }

  method ListRows(table: Mapping, ghost start: map<string, Entry>, rows: seq<LineResult>, clock: nat -> int)
    returns (done: nat)
    requires table.dict == start
    modifies table
    ensures done <= |rows| && StopsAtPanic(rows, done)
    ensures ListedSoFar(table.dict, start, Items(rows, done), clock) && RowsListed(table.dict, start, rows, done)
  {
    done := 0;
    var listed := 0;
    while done < |rows| && !rows[done].Panic?
      invariant done <= |rows| && listed == |Items(rows, done)|
      invariant forall i :: 0 <= i < done ==> !rows[i].Panic?
      invariant ListedSoFar(table.dict, start, Items(rows, done), clock)
      invariant RowsListed(table.dict, start, rows, done)
    {
      RowsListedAfter(table.dict, start, rows, done, clock(2 * listed), clock(2 * listed + 1));
      if rows[done].Item? {
        ListNext(table, start, Items(rows, done), rows[done].conn, clock, listed);
        listed := listed + 1;
      } else {
        SkippedRow(rows, done);
      }
      done := done + 1;
    }
  }

  ghost predicate ListedSoFar(dict: map<string, Entry>, start: map<string, Entry>, conns: seq<ConnectionItem>,
                              clock: nat -> int) {
    dict == ListAll(start, Touches(conns, clock, |conns|))
  }

  lemma SkippedRow(rows: seq<LineResult>, n: nat)
    requires n < |rows| && !rows[n].Item?
    ensures Items(rows, n + 1) == Items(rows, n)
  {
  }

  method ListNext(table: Mapping, ghost start: map<string, Entry>, ghost conns: seq<ConnectionItem>,
                  conn: ConnectionItem, clock: nat -> int, n: nat)
    requires n == |conns| && ListedSoFar(table.dict, start, conns, clock)
    modifies table
    ensures ListedSoFar(table.dict, start, conns + [conn], clock)
    ensures table.dict == BothListed(old(table.dict), conn, clock(2 * n), clock(2 * n + 1))
  {
    ListConn(table, conn, clock(2 * n), clock(2 * n + 1));
    ListedOneMore(start, conns, conn, clock);
  }

  lemma ListedOneMore(start: map<string, Entry>, conns: seq<ConnectionItem>, c: ConnectionItem, clock: nat -> int)
    ensures var n := |conns|; var more := conns + [c];
            ListAll(start, Touches(more, clock, n + 1)) ==
            Listed(Listed(ListAll(start, Touches(conns, clock, n)), Touch(c.addr, c.inode, clock(2 * n))),
                   Touch(c.reverseAddr, c.inode, clock(2 * n + 1)))
  {
    var n := |conns|;
    TouchesAgree(conns + [c], conns, clock, n);
    var forth, back := Touch(c.addr, c.inode, clock(2 * n)), Touch(c.reverseAddr, c.inode, clock(2 * n + 1));
    ListAllTwo(start, Touches(conns, clock, n), forth, back);
  }

  // --------------------------------------------------------- attribution

  /** getProcessByAddr as a function of the tables. */
  function Resolve(conns: map<string, Entry>, index: map<string, string>, dict: map<string, Process>, addr: string)
    : Process?
  {
    var inode := Value(conns, addr);
    if inode == "" then null
    else if inode in index && index[inode] in dict then dict[index[inode]] else null
  }

  /** The table has an inode for the key, and the index and dictionary a process for it. */
  ghost predicate HasOwner(conns: map<string, Entry>, index: map<string, string>, dict: map<string, Process>,
                           addr: string) {
    && addr in conns && conns[addr].value != "" && conns[addr].value in index
    && index[conns[addr].value] in dict
  }

  /** A key has an owner only through the table, the index and the dictionary. */
  lemma OwnerIff(conns: map<string, Entry>, index: map<string, string>, dict: map<string, Process>, addr: string)
    ensures Resolve(conns, index, dict, addr) != null <==> HasOwner(conns, index, dict, addr)
    ensures HasOwner(conns, index, dict, addr) ==>
              Resolve(conns, index, dict, addr) == dict[index[conns[addr].value]]
  {
  }

  /** The ring of a process after the first n of the entries were retried, the i-th at
      second clock(i). */
  ghost function RetriedRing(ring: seq<TrafficEntry>, p: Process, conns: map<string, Entry>, index: map<string, string>,
                             dict: map<string, Process>, entries: seq<DelayEntry>, clock: nat -> int, n: nat)
    : seq<TrafficEntry>
    requires n <= |entries|
  {
    if n == 0 then ring
    else
      var r := RetriedRing(ring, p, conns, index, dict, entries, clock, n - 1);
      var e := entries[n - 1];
      if Resolve(conns, index, dict, e.job.addr) == p
      then CreditRing(r, Credit(clock(n - 1), e.job.side, e.job.bytes))
      else r
  }

  ghost predicate Owns(p: Process, conns: map<string, Entry>, index: map<string, string>, dict: map<string, Process>,
                       addr: string) {
    HasOwner(conns, index, dict, addr) && dict[index[conns[addr].value]] == p
  }

  /** Those of the first n positions of which `owns` holds, in order. */
  ghost predicate Positions(owned: seq<nat>, n: nat, owns: nat -> bool) {
    && (forall i, j :: 0 <= i < j < |owned| ==> owned[i] < owned[j])
    && forall i: nat :: i in owned <==> i < n && owns(i)
  }

  lemma PositionsSnoc(owned: seq<nat>, n: nat, owns: nat -> bool)
    requires Positions(owned, n, owns)
    ensures Positions(if owns(n) then owned + [n] else owned, n + 1, owns)
  {
    assert forall k :: 0 <= k < |owned| ==> owned[k] in owned;
    var more := owned + [n];
    assert forall i: nat :: i in more <==> i in owned || i == n;
  }

  function CreditsAt(entries: seq<DelayEntry>, clock: nat -> int, owned: seq<nat>): (r: seq<Credit>)
    requires forall k :: 0 <= k < |owned| ==> owned[k] < |entries|
    ensures |r| == |owned|
  {
    seq(|owned|, k requires 0 <= k < |owned| =>
      Credit(clock(owned[k]), entries[owned[k]].job.side, entries[owned[k]].job.bytes))
  }

  lemma RetriedNext(ring: seq<TrafficEntry>, p: Process, conns: map<string, Entry>, index: map<string, string>,
                    dict: map<string, Process>, entries: seq<DelayEntry>, clock: nat -> int, n: nat)
    requires n < |entries|
    ensures var before := RetriedRing(ring, p, conns, index, dict, entries, clock, n);
            var c := Credit(clock(n), entries[n].job.side, entries[n].job.bytes);
            RetriedRing(ring, p, conns, index, dict, entries, clock, n + 1) ==
            if Owns(p, conns, index, dict, entries[n].job.addr) then CreditRing(before, c) else before
  {
    OwnerIff(conns, index, dict, entries[n].job.addr);
  }

  /** The ring is that of the history with the credits of these entries behind it. */
  ghost predicate HistoryExtended(ring: seq<TrafficEntry>, h: seq<Credit>, entries: seq<DelayEntry>,
                                  clock: nat -> int, owned: seq<nat>) {
    (forall k :: 0 <= k < |owned| ==> owned[k] < |entries|) && ring == RingOf(h + CreditsAt(entries, clock, owned))
  }

  lemma ExtendedSnoc(ring: seq<TrafficEntry>, h: seq<Credit>, entries: seq<DelayEntry>, clock: nat -> int,
                     owned: seq<nat>, n: nat)
    requires n < |entries| && HistoryExtended(ring, h, entries, clock, owned)
    ensures var c := Credit(clock(n), entries[n].job.side, entries[n].job.bytes);
            HistoryExtended(CreditRing(ring, c), h, entries, clock, owned + [n])
  {
    var c := Credit(clock(n), entries[n].job.side, entries[n].job.bytes);
    var before := CreditsAt(entries, clock, owned);
    assert CreditsAt(entries, clock, owned + [n]) == before + [c];
    assert h + (before + [c]) == (h + before) + [c];
    Snoc(h + before, c);
  }

  lemma NothingExtended(ring: seq<TrafficEntry>, h: seq<Credit>, entries: seq<DelayEntry>, clock: nat -> int)
    requires ring == RingOf(h)
    ensures HistoryExtended(ring, h, entries, clock, [])
  {
    assert h + CreditsAt(entries, clock, []) == h;
  }

  /** What one retry does to the ring. */
  ghost predicate RetryAt(entries: seq<DelayEntry>, clock: nat -> int, rings: nat -> seq<TrafficEntry>,
                          owns: nat -> bool, k: nat)
    requires k < |entries|
  {
    var c := Credit(clock(k), entries[k].job.side, entries[k].job.bytes);
    rings(k + 1) == if owns(k) then CreditRing(rings(k), c) else rings(k)
  }

  lemma {:induction false} RetriesExtend(h: seq<Credit>, entries: seq<DelayEntry>, clock: nat -> int,
                                         rings: nat -> seq<TrafficEntry>, owns: nat -> bool, n: nat)
    returns (owned: seq<nat>)
    requires n <= |entries| && rings(0) == RingOf(h)
    requires forall k: nat :: k < n ==> RetryAt(entries, clock, rings, owns, k)
    ensures Positions(owned, n, owns) && HistoryExtended(rings(n), h, entries, clock, owned)
  {
    if n == 0 {
      owned := [];
      NothingExtended(rings(0), h, entries, clock);
    } else {
      owned := RetriesExtend(h, entries, clock, rings, owns, n - 1);
      PositionsSnoc(owned, n - 1, owns);
      assert RetryAt(entries, clock, rings, owns, n - 1);
      if owns(n - 1) {
        ExtendedSnoc(rings(n - 1), h, entries, clock, owned, n - 1);
        owned := owned + [n - 1];
      }
    }
  }

  /** Retrying entries credits a process exactly those it owns, each once and in order:
      its ring becomes that of its history with their credits behind it. */
  lemma RetriesCreditOwned(ring: seq<TrafficEntry>, h: seq<Credit>, p: Process, conns: map<string, Entry>,
                           index: map<string, string>, dict: map<string, Process>, entries: seq<DelayEntry>,
                           clock: nat -> int, n: nat)
    returns (owned: seq<nat>)
    requires n <= |entries| && ring == RingOf(h)
    ensures Positions(owned, n, (i: nat) => i < |entries| && Owns(p, conns, index, dict, entries[i].job.addr))
    ensures HistoryExtended(RetriedRing(ring, p, conns, index, dict, entries, clock, n), h, entries, clock, owned)
  {
    var owns := (i: nat) => i < |entries| && Owns(p, conns, index, dict, entries[i].job.addr);
    var rings := (i: nat) =>
      if i <= |entries| then RetriedRing(ring, p, conns, index, dict, entries, clock, i) else [];
    forall k: nat | k < n ensures RetryAt(entries, clock, rings, owns, k) {
      RetriedNext(ring, p, conns, index, dict, entries, clock, k);
    }
    owned := RetriesExtend(h, entries, clock, rings, owns, n);
  }

  /** After a rescan the owner of a listed key with a scanned inode is a scanned
      process that lists the inode, whatever the table held before. */
  lemma ResolveAfterRescan(before: map<string, Entry>, ts: seq<Touch<string>>, scan: Scan, order: seq<string>,
                           dict: map<string, Process>, k: nat)
    requires k < |ts| && Consistent(ts) && ts[k].inode != "" && IsOrder(order, scan.Keys)
    requires exists pid :: pid in scan && ts[k].inode in scan[pid]
    requires forall pid :: pid in scan ==> pid in dict
    ensures var p := Resolve(ListAll(before, ts), BuildIndex(scan, order), dict, ts[k].key);
            exists pid :: pid in scan && pid in dict && dict[pid] == p && ts[k].inode in scan[pid]
  {
    LastWriterWins(before, ts, ts[k].key);
    assert Touched(ts, ts[k].key);
    IndexAgreesWithScan(scan, order, ts[k].inode);
    var pid := BuildIndex(scan, order)[ts[k].inode];
    assert dict[pid] == Resolve(ListAll(before, ts), BuildIndex(scan, order), dict, ts[k].key);
  }

  /** How many leading entries are stamped no later than t. */
  function Ready(entries: seq<DelayEntry>, t: int): (n: nat)
    ensures n <= |entries| && forall i :: 0 <= i < n ==> entries[i].stamp <= t
    ensures n < |entries| ==> entries[n].stamp > t
  {
    if entries == [] || entries[0].stamp > t then 0 else 1 + Ready(entries[1..], t)
  }

  class Netflow {
    const bindIPs: set<string>
    const connInodeHash: Mapping
    const processHash: ProcessController
    var packetQueue: seq<Packet>
    var delayQueue: seq<DelayEntry>
    var counter: nat
    /** The entry the syncer holds between ticks. */
    var entry: Option<DelayEntry>
    var cancelled: bool

    constructor (bindIPs: set<string>)
      ensures this.bindIPs == bindIPs && packetQueue == [] && delayQueue == [] && counter == 0
      ensures entry == None && !cancelled
      ensures fresh(connInodeHash) && fresh(processHash) && processHash.Valid()
      ensures connInodeHash.dict == map[] && processHash.dict == map[]
    {
      this.bindIPs := bindIPs;
      connInodeHash := new Mapping();
      processHash := new ProcessController();
      packetQueue, delayQueue, counter, entry, cancelled := [], [], 0, None, false;
    }

    ghost function Owner(addr: string): Process?
      reads connInodeHash, processHash
    {
      Resolve(connInodeHash.dict, processHash.inodePidMap, processHash.dict, addr)
    }

    method Cancel()
      modifies `cancelled
      ensures cancelled
    {
      cancelled := true;
    }

    /** enqueue: a packet for which there is no room is dropped and not counted. */
    method Enqueue(packet: Packet)
      modifies `packetQueue, `counter
      ensures |old(packetQueue)| < 2_000_000 ==>
                packetQueue == old(packetQueue) + [packet] && counter == old(counter) + 1
      ensures |old(packetQueue)| >= 2_000_000 ==> packetQueue == old(packetQueue) && counter == old(counter)
    {
      if |packetQueue| < QUEUE_SIZE {
        packetQueue := packetQueue + [packet];
        counter := counter + 1;
      }
    }

    method PushDelayQueue(e: DelayEntry)
      modifies `delayQueue
      ensures |old(delayQueue)| < 2_000_000 ==> delayQueue == old(delayQueue) + [e]
      ensures |old(delayQueue)| >= 2_000_000 ==> delayQueue == old(delayQueue)
    {
      if |delayQueue| < QUEUE_SIZE {
        delayQueue := delayQueue + [e];
      }
    }

    /** consumeDelayQueue: a cancelled context may be seen first, which is `seesDone`. */
    method ConsumeDelayQueue(seesDone: bool) returns (e: Option<DelayEntry>)
      modifies `delayQueue
      ensures HeldPart(e) + delayQueue == old(delayQueue)
      ensures e == None <==> (cancelled && seesDone) || old(delayQueue) == []
    {
      if cancelled && seesDone {
        return None;
      }
      if delayQueue == [] {
        return None;
      }
      e := Some(delayQueue[0]);
      delayQueue := delayQueue[1..];
    }

    /** Every key without an inode, and every inode without a process, has no owner. */
    method GetProcessByAddr(addr: string) returns (proc: Process?)
      ensures proc == Owner(addr)
      ensures proc != null <==> HasOwner(connInodeHash.dict, processHash.inodePidMap, processHash.dict, addr)
      ensures proc != null ==> proc == processHash.dict[processHash.inodePidMap[connInodeHash.dict[addr].value]]
    {
      var inode, _ := connInodeHash.Get(addr);
      if |inode| == 0 {
        return null;
      }
      proc := processHash.GetProcessByInode(inode);
    }

    method IncreaseProcessTraffic(proc: Process, length: nat, side: Side, second: int)
      modifies proc`ring
      ensures proc.ring == CreditRing(old(proc.ring), Credit(second, side, length))
    {
      match side {
        case Input => proc.IncreaseInput(second, length);
        case Output => proc.IncreaseOutput(second, length);
      }
    }

    /** increaseTraffic: the owner is credited, or the job is delayed under the time
        read after the lookup failed. */
    method IncreaseTraffic(job: Job, worker: nat, second: int, stamp: int) returns (ok: bool)
      modifies `delayQueue, (if Owner(job.addr) == null then {} else {Owner(job.addr)})`ring
      ensures ok <==> HasOwner(connInodeHash.dict, processHash.inodePidMap, processHash.dict, job.addr)
      ensures ok ==> var inode := connInodeHash.dict[job.addr].value;
                     old(Owner(job.addr)) == processHash.dict[processHash.inodePidMap[inode]]
      ensures ok ==> delayQueue == old(delayQueue)
      ensures ok ==> var c := Credit(second, job.side, job.bytes);
                     old(Owner(job.addr)).ring == CreditRing(old(Owner(job.addr).ring), c)
      ensures !ok ==> delayQueue == if |old(delayQueue)| < 2_000_000
                                    then old(delayQueue) + [DelayEntry(stamp, job, worker)] else old(delayQueue)
    {
      var proc := GetProcessByAddr(job.addr);
      if proc == null {
        PushDelayQueue(DelayEntry(stamp, job, worker));
        return false;
      }
      IncreaseProcessTraffic(proc, job.bytes, job.side, second);
      return true;
    }

    /** handleDelayEntry: a failed retry is discarded. */
    method HandleDelayEntry(e: DelayEntry, second: int) returns (ok: bool)
      modifies (if Owner(e.job.addr) == null then {} else {Owner(e.job.addr)})`ring
      ensures ok <==> HasOwner(connInodeHash.dict, processHash.inodePidMap, processHash.dict, e.job.addr)
      ensures ok ==> var inode := connInodeHash.dict[e.job.addr].value;
                     old(Owner(e.job.addr)) == processHash.dict[processHash.inodePidMap[inode]]
      ensures ok ==> var c := Credit(second, e.job.side, e.job.bytes);
                     old(Owner(e.job.addr)).ring == CreditRing(old(Owner(e.job.addr).ring), c)
    {
      var proc := GetProcessByAddr(e.job.addr);
      if proc == null {
        return false;
      }
      IncreaseProcessTraffic(proc, e.job.bytes, e.job.side, second);
      return true;
    }

    ghost function Rings(): map<string, seq<TrafficEntry>>
      reads processHash, processHash.dict.Values
    {
      map pid | pid in processHash.dict :: processHash.dict[pid].ring
    }

    /** Every indexed process's ring is what retrying the first n entries, the i-th at
        second clock(i), makes of the ring it had. */
    ghost predicate RetriedFrom(before: map<string, seq<TrafficEntry>>, entries: seq<DelayEntry>,
                                clock: nat -> int, n: nat)
      requires n <= |entries|
      reads connInodeHash, processHash, processHash.dict.Values
    {
      forall pid :: pid in processHash.dict ==>
        pid in before && processHash.dict[pid].ring ==
        RetriedRing(before[pid], processHash.dict[pid], connInodeHash.dict, processHash.inodePidMap, processHash.dict,
                    entries, clock, n)
    }

    /** n entries are handled, all of them in time. */
    ghost predicate Progress(before: map<string, seq<TrafficEntry>>, pending: seq<DelayEntry>,
                             clock: nat -> int, n: nat, t: int)
      reads this, connInodeHash, processHash, processHash.dict.Values
    {
      Rest(entry, delayQueue, pending, n) && AllReady(pending, n, t) && RetriedFrom(before, pending, clock, n)
    }

    /** The head of the drain loop: take an entry unless one is held, and see whether
        it may be handled. */
    method NextReady(ghost before: map<string, seq<TrafficEntry>>, ghost pending: seq<DelayEntry>,
                     ghost clock: nat -> int, ghost n: nat, lastTime: int, seesDone: bool)
      returns (ready: bool)
      requires Progress(before, pending, clock, n, lastTime)
      modifies `delayQueue, `entry
      ensures Progress(before, pending, clock, n, lastTime)
      ensures Verdict(ready, entry, delayQueue, lastTime, cancelled && seesDone)
    {
      if entry == None {
        entry := ConsumeDelayQueue(seesDone);
      }
      if entry == None {
        return false;
      }
      return !(entry.value.stamp > lastTime);
    }

    /** The body of the drain loop: the held entry is the next of those pending. */
    method RetryHeld(ghost before: map<string, seq<TrafficEntry>>, ghost pending: seq<DelayEntry>,
                     clock: nat -> int, n: nat, ghost t: int)
      requires Progress(before, pending, clock, n, t) && entry.Some? && entry.value.stamp <= t
      modifies `entry, processHash.dict.Values`ring
      ensures n < |pending| && Progress(before, pending, clock, n + 1, t)
    {
      HeldIsNext(entry, delayQueue, pending, n, t);
      var _ := HandleDelayEntry(entry.value, clock(n));
      entry := None;
    }

    /** The drain loop of startResourceSyncer with nobody else at work: it handles the
        held entry and the queue in order up to the first entry stamped after
        lastTime, which it holds, and leaves the rest queued.  It stops earlier only
        where it sees the context cancelled, which done says of each attempt. */
    method Drain(lastTime: int, clock: nat -> int, done: nat -> bool) returns (handled: nat)
      modifies `delayQueue, `entry, processHash.dict.Values`ring
      ensures var pending := old(HeldPart(entry) + delayQueue);
              && handled <= Ready(pending, lastTime)
              && HeldPart(entry) + delayQueue == pending[handled..]
              && (!(cancelled && done(handled)) ==> handled == Ready(pending, lastTime))
              && (entry == None ==> handled == |pending| || (cancelled && done(handled)))
              && (entry != None ==> handled == Ready(pending, lastTime) < |pending|)
              && RetriedFrom(old(Rings()), pending, clock, handled)
    {
      handled := DrainPending(HeldPart(entry) + delayQueue, Rings(), lastTime, clock, done);
    }

    method DrainPending(ghost pending: seq<DelayEntry>, ghost before: map<string, seq<TrafficEntry>>, lastTime: int,
                        clock: nat -> int, done: nat -> bool)
      returns (handled: nat)
      requires Progress(before, pending, clock, 0, lastTime)
      modifies `delayQueue, `entry, processHash.dict.Values`ring
      ensures Ended(pending, lastTime, handled, entry, cancelled && done(handled))
      ensures Progress(before, pending, clock, handled, lastTime)
    {
      handled := 0;
      var ready := NextReady(before, pending, clock, handled, lastTime, done(handled));
      while ready
        invariant handled <= |pending| && Progress(before, pending, clock, handled, lastTime)
        invariant Verdict(ready, entry, delayQueue, lastTime, cancelled && done(handled))
        decreases |pending| - handled, ready
      {
        RetryHeld(before, pending, clock, handled, lastTime);
        handled := handled + 1;
        ready := NextReady(before, pending, clock, handled, lastTime, done(handled));
      }
      DrainEnd(entry, delayQueue, pending, lastTime, handled, cancelled && done(handled));
    }
  }

  /** The held entry and the queue are what is pending from position n on. */
  ghost predicate Rest(entry: Option<DelayEntry>, queue: seq<DelayEntry>, pending: seq<DelayEntry>, n: nat) {
    n <= |pending| && HeldPart(entry) + queue == pending[n..]
  }

  ghost predicate AllReady(pending: seq<DelayEntry>, n: nat, t: int) {
    forall i :: 0 <= i < n && i < |pending| ==> pending[i].stamp <= t
  }

  /** Whether there is an entry to handle: one stamped no later than t is held.  There
      is none only if the queue is empty or the drain stops. */
  ghost predicate Verdict(ready: bool, entry: Option<DelayEntry>, queue: seq<DelayEntry>, t: int, stop: bool) {
    if entry.None? then !ready && (stop || queue == []) else ready <==> entry.value.stamp <= t
  }

  /** Where a drain ends. */
  ghost predicate Ended(pending: seq<DelayEntry>, t: int, n: nat, entry: Option<DelayEntry>, stop: bool) {
    if entry.Some? then n == Ready(pending, t) < |pending|
    else n <= Ready(pending, t) && (stop || n == |pending|)
  }

  lemma HeldIsNext(entry: Option<DelayEntry>, queue: seq<DelayEntry>, pending: seq<DelayEntry>, n: nat, t: int)
    requires entry.Some? && Rest(entry, queue, pending, n)
    ensures n < |pending| && entry.value == pending[n] && Rest(None, queue, pending, n + 1)
    ensures AllReady(pending, n, t) && entry.value.stamp <= t ==> AllReady(pending, n + 1, t)
  {
  }

  lemma DrainEnd(entry: Option<DelayEntry>, queue: seq<DelayEntry>, pending: seq<DelayEntry>,
                 t: int, n: nat, stop: bool)
    requires Rest(entry, queue, pending, n)
    requires AllReady(pending, n, t) && Verdict(false, entry, queue, t, stop)
    ensures Ended(pending, t, n, entry, stop)
  {
    if entry.Some? {
      HeldIsNext(entry, queue, pending, n, t);
      ReadyIs(pending, t, n);
    } else {
      ReadyFrom(pending, t, n);
    }
  }

  lemma ReadyFrom(entries: seq<DelayEntry>, t: int, n: nat)
    requires n <= |entries| && AllReady(entries, n, t)
    ensures n <= Ready(entries, t)
  {
  }

  lemma {:induction false} ReadyIs(entries: seq<DelayEntry>, t: int, n: nat)
    requires n <= |entries| && AllReady(entries, n, t)
    requires n < |entries| ==> entries[n].stamp > t
    ensures n == Ready(entries, t)
  {
  }
}
