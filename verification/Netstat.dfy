/** Connection records of netstat.go, the packet key of netflow.go, and the proof
    that both build the same key from one 4-tuple. */
module Netstat {
  import opened Text
  import opened ConnectionMap

  // ------------------------------------------------------------- address keys

  type Octet = x: int | 0 <= x < 256

  /** An IPv4 address in network order. */
  datatype IPv4 = IPv4(a: Octet, b: Octet, c: Octet, d: Octet)

  type Port = x: int | 0 <= x < 65536

  /** The two endpoints of a packet or a socket, nearer one first. */
  datatype Endpoints = Endpoints(ip: IPv4, port: Port, peerIP: IPv4, peerPort: Port) {
    function Reversed(): Endpoints {
      Endpoints(peerIP, peerPort, ip, port)
    }
  }

  /** Two texts with a separator between them. */
  function Cat(a: string, sep: char, b: string): string {
    a + [sep] + b
  }

  /** net.IP.String of an IPv4 address. */
  function Dotted(ip: IPv4): string {
    Cat(Dec(ip.a), '.', Cat(Dec(ip.b), '.', Cat(Dec(ip.c), '.', Dec(ip.d))))
  }

  /** ip1:port1_ip2:port2 */
  function AddrPair(ip1: string, port1: string, ip2: string, port2: string): string {
    Cat(ip1, ':', Cat(port1, '_', Cat(ip2, ':', port2)))
  }

  /** spliceAddr */
  function SpliceAddr(e: Endpoints): string {
    AddrPair(Dotted(e.ip), Dec(e.port), Dotted(e.peerIP), Dec(e.peerPort))
  }

  // ----------------------------------------------------------------- parsing

  /** hex2dec: errors are ignored. */
  function HexToDec(hexstr: string): string {
    DecInt(ParseInt(hexstr, 16, MAX_UINT64).0)
  }

  /** hex2ip: the address, or an error when the text is not eight characters. */
  function HexToIP(hexstr: string): (string, bool) {
    if |hexstr| != 8 then ("", false)
    else
      var i1 := ParseInt(hexstr[6..8], 16, MAX_UINT64).0;
      var i2 := ParseInt(hexstr[4..6], 16, MAX_UINT64).0;
      var i3 := ParseInt(hexstr[2..4], 16, MAX_UINT64).0;
      var i4 := ParseInt(hexstr[0..2], 16, MAX_UINT64).0;
      (Cat(DecInt(i1), '.', Cat(DecInt(i2), '.', Cat(DecInt(i3), '.', DecInt(i4)))), true)
  }

  /** parseAddr: anything malformed comes back as it is, with no port. */
  function ParseAddr(str: string): (string, string) {
    var l := Split(str, ':');
    if |l| != 2 then (str, "")
    else
      var (ip, ok) := HexToIP(l[0]);
      if !ok then (str, "") else (ip, HexToDec(l[1]))
  }

  datatype ConnectionItem = ConnectionItem(
    addr: string, reverseAddr: string, state: string,
    srcIP: string, srcPort: string, destIP: string, destPort: string,
    inode: string, txQueue: int, rxQueue: int, uid: int)

  /** What a line yields: a record, nothing, or an index out of range. */
  datatype LineResult = Item(conn: ConnectionItem) | Skipped | Panic

  const ESTABLISHED: string := "01"
  const LISTEN: string := "0A"

  function StateName(symbol: string): string {
    if symbol == ESTABLISHED then "ESTABLISHED" else "LISTEN"
  }

  /** getConnectionItem, without the user name it looks up. */
  function GetConnectionItem(line: string): LineResult {
    FromColumns(Columns(line))
  }

  function FromColumns(source: seq<string>): LineResult {
    if |source| <= 3 then Panic
    else if source[3] != ESTABLISHED && source[3] != LISTEN then Skipped
    else
      var (destIP, destPort) := ParseAddr(source[2]);
      if destIP == "0.0.0.0" then Skipped
      else
        var (ip, port) := ParseAddr(source[1]);
        if |source| <= 4 then Panic
        else
          var tcpQueue := Split(source[4], ':');
          var (txq, txOk) := ParseInt(tcpQueue[0], 16, MAX_UINT32);
          if !txOk then Skipped
          else if |tcpQueue| <= 1 then Panic
          else
            var (rxq, rxOk) := ParseInt(tcpQueue[1], 16, MAX_UINT32);
            if !rxOk then Skipped
            else if |source| <= 7 then Panic
            else
              var (uid, uidOk) := ParseInt(source[7], 10, MAX_UINT64);
              if !uidOk then Skipped
              else if |source| <= 9 then Panic
              else
                var addr := AddrPair(ip, port, destIP, destPort);
                var raddr := AddrPair(destIP, destPort, ip, port);
                Item(ConnectionItem(addr, raddr, StateName(source[3]), ip, port, destIP, destPort,
                                    source[9], txq, rxq, uid))
  }

  // ---------------------------------------------------------------- printing

  type Byte32 = x: int | 0 <= x <= MAX_UINT32

  /** A row of /proc/net/tcp.  The columns nothing is read from are kept as text. */
  datatype Row = Row(ends: Endpoints, state: Octet, tx: Byte32, rx: Byte32, uid: Byte32, inode: nat,
                     slot: string, timer: string, retransmits: string, timeout: string, rest: seq<string>)

  /** An address as a little-endian host prints the network-order word. */
  function HostWord(ip: IPv4): nat {
    ip.a + 256 * ip.b + 65536 * ip.c + 16777216 * ip.d
  }

  function PrintAddr(ip: IPv4, port: Port): string {
    Hex(HostWord(ip), 8) + [':'] + Hex(port, 4)
  }

  function PrintFields(r: Row): seq<string> {
    [r.slot, PrintAddr(r.ends.ip, r.ends.port), PrintAddr(r.ends.peerIP, r.ends.peerPort), Hex(r.state, 2),
     Hex(r.tx, 8) + [':'] + Hex(r.rx, 8), r.timer, r.retransmits, Dec(r.uid), r.timeout, Dec(r.inode)] + r.rest
  }

  ghost predicate PlainColumns(r: Row) {
    IsField(r.slot) && IsField(r.timer) && IsField(r.retransmits) && IsField(r.timeout) && AreFields(r.rest)
  }

  const ZERO_IP: IPv4 := IPv4(0, 0, 0, 0)

  /** What getConnectionItem makes of a printed row. */
  function Expected(r: Row): LineResult {
    if r.state != 1 && r.state != 10 then Skipped
    else if r.ends.peerIP == ZERO_IP then Skipped
    else if r.tx > MAX_UINT32 / 2 || r.rx > MAX_UINT32 / 2 then Skipped
    else Item(ConnectionItem(
      SpliceAddr(r.ends), SpliceAddr(r.ends.Reversed()), if r.state == 1 then "ESTABLISHED" else "LISTEN",
      Dotted(r.ends.ip), Dec(r.ends.port), Dotted(r.ends.peerIP), Dec(r.ends.peerPort),
      Dec(r.inode), r.tx, r.rx, r.uid))
  }

  // ---------------------------------------------------- parsing undoes printing

  lemma ParseOctet(o: Octet)
    ensures ParseInt(Hex(o, 2), 16, MAX_UINT64) == (o, true)
  {
    assert Pow(16, 2) == 256 by { assert Pow(16, 1) == 16; }
    ParseIntHex(o, 2, MAX_UINT64);
  }

  lemma HostWordHex(ip: IPv4)
    ensures Hex(HostWord(ip), 8) == Hex(ip.d, 2) + Hex(ip.c, 2) + Hex(ip.b, 2) + Hex(ip.a, 2)
  {
    var two := ip.d * 256 + ip.c;
    var three := two * 256 + ip.b;
    assert HostWord(ip) == three * 256 + ip.a;
    assert Hex(two, 4) == Hex(ip.d, 2) + Hex(ip.c, 2) by { HexTail(ip.d, ip.c, 2); }
    assert Hex(three, 6) == Hex(two, 4) + Hex(ip.b, 2) by { HexTail(two, ip.b, 4); }
    assert Hex(HostWord(ip), 8) == Hex(three, 6) + Hex(ip.a, 2) by { HexTail(three, ip.a, 6); }
  }

  lemma HexToIPOfPrinted(ip: IPv4)
    ensures HexToIP(Hex(HostWord(ip), 8)) == (Dotted(ip), true)
  {
    HostWordHex(ip);
    ParseOctet(ip.a);
    ParseOctet(ip.b);
    ParseOctet(ip.c);
    ParseOctet(ip.d);
    QuarterSlices(Hex(ip.d, 2), Hex(ip.c, 2), Hex(ip.b, 2), Hex(ip.a, 2));
  }

  lemma QuarterSlices(d: string, c: string, b: string, a: string)
    requires |a| == |b| == |c| == |d| == 2
    ensures var s := d + c + b + a;
            |s| == 8 && s[6..8] == a && s[4..6] == b && s[2..4] == c && s[0..2] == d
  {
  }

  lemma HexToDecOfPrinted(port: Port)
    ensures HexToDec(Hex(port, 4)) == Dec(port)
  {
    assert Pow(16, 4) == 65536 by { assert Pow(16, 2) == 256 by { assert Pow(16, 1) == 16; } }
    ParseIntHex(port, 4, MAX_UINT64);
  }

  lemma SplitPair(a: nat, aw: nat, b: nat, bw: nat)
    ensures Split(Hex(a, aw) + [':'] + Hex(b, bw), ':') == [Hex(a, aw), Hex(b, bw)]
  {
    HexIsDigits(a, aw);
    HexIsDigits(b, bw);
    DigitsHaveNo(Hex(a, aw), ':');
    DigitsHaveNo(Hex(b, bw), ':');
    SplitField(Hex(a, aw), ':', Hex(b, bw));
    SplitNone(Hex(b, bw), ':');
  }

  lemma ParseAddrOfPrinted(ip: IPv4, port: Port)
    ensures ParseAddr(PrintAddr(ip, port)) == (Dotted(ip), Dec(port))
  {
    SplitPair(HostWord(ip), 8, port, 4);
    HexToIPOfPrinted(ip);
    HexToDecOfPrinted(port);
  }

  lemma QueueOfPrinted(n: Byte32)
    ensures ParseInt(Hex(n, 8), 16, MAX_UINT32) == if n > MAX_UINT32 / 2 then (MAX_UINT32 / 2, false) else (n, true)
  {
    assert Pow(16, 8) == MAX_UINT32 + 1 by {
      assert Pow(16, 2) == 256 by { assert Pow(16, 1) == 16; }
      assert Pow(16, 4) == 65536;
      assert Pow(16, 6) == 16777216;
    }
    ParseIntHex(n, 8, MAX_UINT32);
  }

  lemma {:induction false} DigitsAreField(s: string)
    requires s != "" && forall i :: 0 <= i < |s| ==> s[i] in HEX_DIGITS || s[i] == ':'
    ensures IsField(s)
  {
  }

  lemma PrintedFields(r: Row)
    requires PlainColumns(r)
    ensures AreFields(PrintFields(r))
  {
    var e := r.ends;
    HexIsDigits(HostWord(e.ip), 8);
    HexIsDigits(HostWord(e.peerIP), 8);
    HexIsDigits(e.port, 4);
    HexIsDigits(e.peerPort, 4);
    HexIsDigits(r.state, 2);
    HexIsDigits(r.tx, 8);
    HexIsDigits(r.rx, 8);
    DecIsDigits(r.uid);
    DecIsDigits(r.inode);
    DigitsAreField(PrintAddr(e.ip, e.port));
    DigitsAreField(PrintAddr(e.peerIP, e.peerPort));
    DigitsAreField(Hex(r.state, 2));
    DigitsAreField(Hex(r.tx, 8) + [':'] + Hex(r.rx, 8));
    DigitsAreField(Dec(r.uid));
    DigitsAreField(Dec(r.inode));
  }

  lemma OctetHexInjective(a: Octet, b: Octet)
    ensures Hex(a, 2) == Hex(b, 2) <==> a == b
  {
    ParseOctet(a);
    ParseOctet(b);
  }

  lemma SymbolsInHex()
    ensures Hex(1, 2) == ESTABLISHED && Hex(10, 2) == LISTEN
  {
  }

  lemma StateOfPrinted(state: Octet)
    ensures Hex(state, 2) == ESTABLISHED <==> state == 1
    ensures Hex(state, 2) == LISTEN <==> state == 10
  {
    SymbolsInHex();
    OctetHexInjective(state, 1);
    OctetHexInjective(state, 10);
  }

  lemma ZeroDotted(ip: IPv4)
    ensures Dotted(ip) == "0.0.0.0" <==> ip == ZERO_IP
  {
    assert Dotted(ZERO_IP) == "0.0.0.0";
    if Dotted(ip) == Dotted(ZERO_IP) {
      DottedInjective(ip, ZERO_IP);
    }
  }

  /** For every row and every padding, reading a printed row gives back its
      addresses, ports, queue sizes, uid and inode; it is skipped exactly when its
      state is neither established nor listening, its peer is 0.0.0.0, or a queue
      size does not fit a signed 32-bit number. */
  lemma ParsingUndoesPrinting(r: Row, pads: seq<nat>, last: nat)
    requires PlainColumns(r) && Pads(PrintFields(r), pads)
    ensures GetConnectionItem(Line(PrintFields(r), pads, last)) == Expected(r)
  {
    PrintedFields(r);
    PaddingIsIrrelevant(PrintFields(r), pads, last);
    ColumnsOfRow(r, PrintFields(r));
  }

  lemma ColumnsOfRow(r: Row, source: seq<string>)
    requires |source| >= 10
    requires source[1] == PrintAddr(r.ends.ip, r.ends.port) && source[2] == PrintAddr(r.ends.peerIP, r.ends.peerPort)
    requires source[3] == Hex(r.state, 2) && source[4] == Hex(r.tx, 8) + [':'] + Hex(r.rx, 8)
    requires source[7] == Dec(r.uid) && source[9] == Dec(r.inode)
    ensures FromColumns(source) == Expected(r)
  {
    StateOfPrinted(r.state);
    assert ParseAddr(source[2]) == (Dotted(r.ends.peerIP), Dec(r.ends.peerPort)) by {
      ParseAddrOfPrinted(r.ends.peerIP, r.ends.peerPort);
    }
    assert ParseAddr(source[1]) == (Dotted(r.ends.ip), Dec(r.ends.port)) by {
      ParseAddrOfPrinted(r.ends.ip, r.ends.port);
    }
    ZeroDotted(r.ends.peerIP);
    assert Split(source[4], ':') == [Hex(r.tx, 8), Hex(r.rx, 8)] by { SplitPair(r.tx, 8, r.rx, 8); }
    QueueOfPrinted(r.tx);
    QueueOfPrinted(r.rx);
    ParseIntDec(r.uid, MAX_UINT64);
  }

  // ------------------------------------------------------------- by example

  /** 10.0.0.5:443 and 93.184.216.34:50000 */
  const EXAMPLE: Endpoints := Endpoints(IPv4(10, 0, 0, 5), 443, IPv4(93, 184, 216, 34), 50000)

  lemma DecStep(n: nat)
    requires n >= 10
    ensures Dec(n) == Dec(n / 10) + [HEX_DIGITS[n % 10]]
  {
  }

  lemma HexPair(o: Octet)
    ensures Hex(o, 2) == [HEX_DIGITS[o / 16], HEX_DIGITS[o % 16]]
  {
    assert Hex(o / 16, 1) == Hex(0, 0) + [HEX_DIGITS[o / 16]];
  }

  lemma OctetExamples()
    ensures Dec(0) == "0" && Dec(5) == "5" && Dec(10) == "10"
    ensures Dec(93) == "93" && Dec(184) == "184" && Dec(216) == "216" && Dec(34) == "34"
  {
    DecStep(10);
    DecStep(93);
    DecStep(34);
    DecStep(184);
    DecStep(18);
    DecStep(216);
    DecStep(21);
  }

  lemma PortExamples()
    ensures Dec(443) == "443" && Dec(50000) == "50000"
  {
    DecStep(443);
    DecStep(44);
    DecStep(50000);
    DecStep(5000);
    DecStep(500);
    DecStep(50);
  }

  lemma AddressesDotted()
    ensures Dotted(EXAMPLE.ip) == "10.0.0.5" && Dotted(EXAMPLE.peerIP) == "93.184.216.34"
  {
    OctetExamples();
  }

  /** The form of a key, nearer endpoint first. */
  lemma KeyExample()
    ensures SpliceAddr(EXAMPLE) == "10.0.0.5:443_93.184.216.34:50000"
  {
    AddressesDotted();
    PortExamples();
    KeyParts(EXAMPLE, "10.0.0.5", "443", "93.184.216.34", "50000");
  }

  lemma KeyParts(e: Endpoints, ip: string, port: string, peerIP: string, peerPort: string)
    requires Dotted(e.ip) == ip && Dec(e.port) == port && Dotted(e.peerIP) == peerIP && Dec(e.peerPort) == peerPort
    ensures SpliceAddr(e) == ip + ":" + port + "_" + peerIP + ":" + peerPort
  {
  }

  lemma HexQuad(high: Octet, low: Octet)
    ensures Hex(high * 256 + low, 4) == Hex(high, 2) + Hex(low, 2)
  {
    HexTail(high, low, 2);
  }

  lemma PrintAddrParts(ip: IPv4, high: Octet, low: Octet)
    requires high * 256 + low < 65536
    ensures PrintAddr(ip, high * 256 + low) ==
            Hex(ip.d, 2) + Hex(ip.c, 2) + Hex(ip.b, 2) + Hex(ip.a, 2) + ":" + (Hex(high, 2) + Hex(low, 2))
  {
    HostWordHex(ip);
    HexQuad(high, low);
  }

  lemma JoinPairs(d: string, c: string, b: string, a: string, h: string, l: string)
    requires |d| == |c| == |b| == |a| == |h| == |l| == 2
    ensures d + c + b + a + ":" + (h + l) ==
            [d[0], d[1], c[0], c[1], b[0], b[1], a[0], a[1], ':', h[0], h[1], l[0], l[1]]
  {
  }

  /** An address and its port in a line, digit by digit: the bytes of the address backwards,
      those of the port forwards. */
  lemma PrintAddrDigits(ip: IPv4, high: Octet, low: Octet)
    requires high * 256 + low < 65536
    ensures PrintAddr(ip, high * 256 + low) ==
            [HEX_DIGITS[ip.d / 16], HEX_DIGITS[ip.d % 16], HEX_DIGITS[ip.c / 16], HEX_DIGITS[ip.c % 16],
             HEX_DIGITS[ip.b / 16], HEX_DIGITS[ip.b % 16], HEX_DIGITS[ip.a / 16], HEX_DIGITS[ip.a % 16], ':',
             HEX_DIGITS[high / 16], HEX_DIGITS[high % 16], HEX_DIGITS[low / 16], HEX_DIGITS[low % 16]]
  {
    PrintAddrParts(ip, high, low);
    HexPair(ip.d);
    HexPair(ip.c);
    HexPair(ip.b);
    HexPair(ip.a);
    HexPair(high);
    HexPair(low);
    JoinPairs(Hex(ip.d, 2), Hex(ip.c, 2), Hex(ip.b, 2), Hex(ip.a, 2), Hex(high, 2), Hex(low, 2));
  }

  /** An address that is not eight digits, a colon and a port comes back as it is. */
  lemma MalformedAddr(str: string)
    requires |Split(str, ':')| != 2 || |Split(str, ':')[0]| != 8
    ensures ParseAddr(str) == (str, "")
  {
  }

  /** Lines of other states and of peers 0.0.0.0 yield nothing, however the rest reads; a
      line of fewer than four columns is an index out of range. */
  lemma UnreadLines(source: seq<string>)
    ensures FromColumns(source).Item? ==>
              |source| >= 10 && (source[3] == "01" || source[3] == "0A") && ParseAddr(source[2]).0 != "0.0.0.0"
    ensures |source| >= 4 && source[3] != "01" && source[3] != "0A" ==> FromColumns(source) == Skipped
    ensures |source| >= 4 && ParseAddr(source[2]).0 == "0.0.0.0" ==> FromColumns(source) == Skipped
    ensures |source| < 4 ==> FromColumns(source) == Panic
    ensures FromColumns(source) == Panic ==> |source| < 10 || |Split(source[4], ':')| < 2
  {
  }

  // ------------------------------------------------------- keys are 4-tuples

  /** Two texts that agree up to their first separator agree on both sides of it. */
  lemma {:induction false} CutAt(a: string, x: string, b: string, y: string, sep: char)
    requires sep !in a && sep !in b && Cat(a, sep, x) == Cat(b, sep, y)
    ensures a == b && x == y
  {
    CatParts(a, sep, x);
    CatParts(b, sep, y);
    if a != "" && b != "" {
      CutAt(a[1..], x, b[1..], y, sep);
      assert a == [a[0]] + a[1..] && b == [b[0]] + b[1..];
    }
  }

  lemma CatParts(a: string, sep: char, x: string)
    ensures Cat(a, sep, x)[0] == (if a == "" then sep else a[0])
    ensures Cat(a, sep, x)[1..] == if a == "" then x else Cat(a[1..], sep, x)
    ensures a != "" ==> a[0] in a
  {
  }

  lemma CutDec(m: nat, x: string, n: nat, y: string, sep: char)
    requires sep !in HEX_DIGITS && Cat(Dec(m), sep, x) == Cat(Dec(n), sep, y)
    ensures m == n && x == y
  {
    DecIsDigits(m);
    DecIsDigits(n);
    DigitsHaveNo(Dec(m), sep);
    DigitsHaveNo(Dec(n), sep);
    CutAt(Dec(m), x, Dec(n), y, sep);
    DecInjective(m, n);
  }

  lemma DottedInjective(p: IPv4, q: IPv4)
    requires Dotted(p) == Dotted(q)
    ensures p == q
  {
    var p2, q2 := Cat(Dec(p.c), '.', Dec(p.d)), Cat(Dec(q.c), '.', Dec(q.d));
    CutDec(p.a, Cat(Dec(p.b), '.', p2), q.a, Cat(Dec(q.b), '.', q2), '.');
    CutDec(p.b, p2, q.b, q2, '.');
    CutDec(p.c, Dec(p.d), q.c, Dec(q.d), '.');
    DecInjective(p.d, q.d);
  }

  lemma DottedHasNo(ip: IPv4, sep: char)
    requires sep !in HEX_DIGITS && sep != '.'
    ensures sep !in Dotted(ip)
  {
    DecHasNo(ip.a, sep);
    DecHasNo(ip.b, sep);
    DecHasNo(ip.c, sep);
    DecHasNo(ip.d, sep);
    CatHasNo(Dec(ip.c), Dec(ip.d), sep);
    CatHasNo(Dec(ip.b), Cat(Dec(ip.c), '.', Dec(ip.d)), sep);
    CatHasNo(Dec(ip.a), Cat(Dec(ip.b), '.', Cat(Dec(ip.c), '.', Dec(ip.d))), sep);
  }

  lemma DecHasNo(n: nat, sep: char)
    requires sep !in HEX_DIGITS
    ensures sep !in Dec(n)
  {
  }

  lemma CatHasNo(a: string, b: string, sep: char)
    requires sep !in a && sep !in b && sep != '.'
    ensures sep !in Cat(a, '.', b)
  {
  }

  lemma CutDotted(p: IPv4, x: string, q: IPv4, y: string)
    requires Cat(Dotted(p), ':', x) == Cat(Dotted(q), ':', y)
    ensures p == q && x == y
  {
    DottedHasNo(p, ':');
    DottedHasNo(q, ':');
    CutAt(Dotted(p), x, Dotted(q), y, ':');
    DottedInjective(p, q);
  }

  /** The packet key determines the 4-tuple. */
  lemma SpliceAddrInjective(e: Endpoints, f: Endpoints)
    requires SpliceAddr(e) == SpliceAddr(f)
    ensures e == f
  {
    var e2, f2 := Cat(Dotted(e.peerIP), ':', Dec(e.peerPort)), Cat(Dotted(f.peerIP), ':', Dec(f.peerPort));
    CutDotted(e.ip, Cat(Dec(e.port), '_', e2), f.ip, Cat(Dec(f.port), '_', f2));
    CutDec(e.port, e2, f.port, f2, '_');
    CutDotted(e.peerIP, Dec(e.peerPort), f.peerIP, Dec(f.peerPort));
    DecInjective(e.peerPort, f.peerPort);
  }

  // ------------------------------------- the table is a table of 4-tuples

  /** The string-keyed table holds exactly what the tuple-keyed one holds. */
  ghost predicate Represents(byText: map<string, Entry>, byTuple: map<Endpoints, Entry>) {
    forall e :: SameAt(byText, byTuple, SpliceAddr(e), e)
  }

  function SplicedTouch(t: Touch<Endpoints>): Touch<string> {
    Touch(SpliceAddr(t.key), t.inode, t.at)
  }

  function SplicedOp(op: TableOp<Endpoints>): TableOp<string> {
    match op
    case Put(t) => Put(SplicedTouch(t))
    case List(t) => List(SplicedTouch(t))
    case Clean(now, expiration) => Clean(now, expiration)
    case Remove(key) => Remove(SpliceAddr(key))
  }

  function Spliced(ops: seq<TableOp<Endpoints>>): (r: seq<TableOp<string>>)
    ensures |r| == |ops|
  {
    seq(|ops|, i requires 0 <= i < |ops| => SplicedOp(ops[i]))
  }

  /** Over every sequence of adds, conditional adds, Cleanups and deletions the table
      keyed by text stays that of a table keyed by 4-tuples, and every lookup answers
      alike: no two tuples ever share an entry. */
  lemma {:induction false} TextTableIsTupleTable(byText: map<string, Entry>, byTuple: map<Endpoints, Entry>,
                                                 ops: seq<TableOp<Endpoints>>)
    requires Represents(byText, byTuple)
    ensures Represents(AllDone(byText, Spliced(ops)), AllDone(byTuple, ops))
    ensures forall e :: Value(AllDone(byText, Spliced(ops)), SpliceAddr(e)) == Value(AllDone(byTuple, ops), e)
  {
    if ops != [] {
      var p, op := ops[..|ops| - 1], ops[|ops| - 1];
      TextTableIsTupleTable(byText, byTuple, p);
      assert Spliced(ops)[..|ops| - 1] == Spliced(p);
      OpRepresents(AllDone(byText, Spliced(p)), AllDone(byTuple, p), op);
    }
  }

  lemma OpRepresents(byText: map<string, Entry>, byTuple: map<Endpoints, Entry>, op: TableOp<Endpoints>)
    requires Represents(byText, byTuple)
    ensures Represents(Done(byText, SplicedOp(op)), Done(byTuple, op))
  {
    match op
    case Put(t) => AddedRepresents(byText, byTuple, t);
    case List(t) => AddedRepresents(byText, byTuple, t);
    case Clean(_, _) =>
    case Remove(key) => RemovedRepresents(byText, byTuple, key);
  }

  lemma SameKeyIff(e: Endpoints, f: Endpoints)
    ensures SpliceAddr(e) == SpliceAddr(f) <==> e == f
  {
    if SpliceAddr(e) == SpliceAddr(f) {
      SpliceAddrInjective(e, f);
    }
  }

  /** One key of the table by text and the tuple it stands for. */
  ghost predicate SameAt(byText: map<string, Entry>, byTuple: map<Endpoints, Entry>, s: string, e: Endpoints) {
    (s in byText <==> e in byTuple) && (e in byTuple ==> s in byText && byText[s] == byTuple[e])
  }

  lemma AddedRepresents(byText: map<string, Entry>, byTuple: map<Endpoints, Entry>, t: Touch<Endpoints>)
    requires Represents(byText, byTuple)
    ensures Represents(Added(byText, SplicedTouch(t)), Added(byTuple, t))
  {
    forall e ensures SameAt(Added(byText, SplicedTouch(t)), Added(byTuple, t), SpliceAddr(e), e) {
      SameKeyIff(e, t.key);
      AddedAt(byText, byTuple, SplicedTouch(t), t, SpliceAddr(e), e);
    }
  }

  lemma AddedAt(byText: map<string, Entry>, byTuple: map<Endpoints, Entry>, t: Touch<string>, u: Touch<Endpoints>,
                s: string, e: Endpoints)
    requires SameAt(byText, byTuple, s, e) && t.inode == u.inode && t.at == u.at && (s == t.key <==> e == u.key)
    ensures SameAt(Added(byText, t), Added(byTuple, u), s, e)
  {
  }

  lemma RemovedRepresents(byText: map<string, Entry>, byTuple: map<Endpoints, Entry>, key: Endpoints)
    requires Represents(byText, byTuple)
    ensures Represents(byText - {SpliceAddr(key)}, byTuple - {key})
  {
    forall e ensures SameAt(byText - {SpliceAddr(key)}, byTuple - {key}, SpliceAddr(e), e) {
      SameKeyIff(e, key);
      RemovedAt(byText, byTuple, SpliceAddr(key), key, SpliceAddr(e), e);
    }
  }

  lemma RemovedAt(byText: map<string, Entry>, byTuple: map<Endpoints, Entry>, key: string, pair: Endpoints,
                  s: string, e: Endpoints)
    requires SameAt(byText, byTuple, s, e) && (s == key <==> e == pair)
    ensures SameAt(byText - {key}, byTuple - {pair}, s, e)
  {
  }

  /** A packet and its connection meet: once a printed row has been read and listed in
      any table, the key of a packet of the connection, in either direction, looks up
      the row's inode. */
  lemma PacketFindsListedRow(r: Row, pads: seq<nat>, last: nat, dict: map<string, Entry>, now1: int, now2: int)
    requires PlainColumns(r) && Pads(PrintFields(r), pads)
    ensures GetConnectionItem(Line(PrintFields(r), pads, last)).Item? ==>
              var c := GetConnectionItem(Line(PrintFields(r), pads, last)).conn;
              var listed := Listed(Listed(dict, Touch(c.addr, c.inode, now1)), Touch(c.reverseAddr, c.inode, now2));
              && Value(listed, SpliceAddr(r.ends)) == Dec(r.inode)
              && Value(listed, SpliceAddr(r.ends.Reversed())) == Dec(r.inode)
  {
    ParsingUndoesPrinting(r, pads, last);
    assert Expected(r).Item? ==>
        && Expected(r).conn.addr == SpliceAddr(r.ends)
        && Expected(r).conn.reverseAddr == SpliceAddr(r.ends.Reversed());
    ListedBoth(dict, SpliceAddr(r.ends), SpliceAddr(r.ends.Reversed()), Dec(r.inode), now1, now2);
  }

  lemma ListedBoth(dict: map<string, Entry>, k1: string, k2: string, inode: string, now1: int, now2: int)
    ensures var listed := Listed(Listed(dict, Touch(k1, inode, now1)), Touch(k2, inode, now2));
            Value(listed, k1) == inode && Value(listed, k2) == inode
  {
  }
}
