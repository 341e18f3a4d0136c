/** The per-process traffic ring of process.go and the window query over it.

    A ring is a per-second histogram of credited bytes that sheds its oldest
    second when it is full.  The module defines the ring that a history of
    credits leaves behind, the unbounded histogram it approximates, and proves
    when a window query on the ring answers for the whole history. */
module TrafficWindow {

  /** maxRingSize */
  const MAX_RING_SIZE: nat := 61

  datatype Side = Input | Output

  datatype TrafficEntry = TrafficEntry(timestamp: int, bytesIn: int, bytesOut: int)

  datatype TrafficStats = TrafficStats(bytesIn: int, bytesOut: int, inRate: int, outRate: int)

  /** One call of IncreaseInput or IncreaseOutput, at a second of the clock. */
  datatype Credit = Credit(at: int, side: Side, bytes: int)

  // ---------------------------------------------------------------- the ring

  function Shrunk(ring: seq<TrafficEntry>): seq<TrafficEntry> {
    if |ring| >= MAX_RING_SIZE then ring[1..] else ring
  }

  function Bump(e: TrafficEntry, c: Credit): TrafficEntry {
    if c.side == Input then e.(bytesIn := e.bytesIn + c.bytes) else e.(bytesOut := e.bytesOut + c.bytes)
  }

  /** Adds a credit to the newest second, or opens a new one. */
  function Merged(ring: seq<TrafficEntry>, c: Credit): seq<TrafficEntry> {
    if ring != [] && ring[|ring| - 1].timestamp == c.at
    then ring[..|ring| - 1] + [Bump(ring[|ring| - 1], c)]
    else ring + [Bump(TrafficEntry(c.at, 0, 0), c)]
  }

  /** IncreaseInput and IncreaseOutput: shed first, then merge. */
  function CreditRing(ring: seq<TrafficEntry>, c: Credit): seq<TrafficEntry> {
    Merged(Shrunk(ring), c)
  }

  /** The ring a process holds after a history of credits. */
  function RingOf(h: seq<Credit>): seq<TrafficEntry> {
    if h == [] then [] else CreditRing(RingOf(h[..|h| - 1]), h[|h| - 1])
  }

  /** The histogram nothing is shed from. */
  ghost function HistogramOf(h: seq<Credit>): seq<TrafficEntry> {
    if h == [] then [] else Merged(HistogramOf(h[..|h| - 1]), h[|h| - 1])
  }

  // --------------------------------------------------- reference definitions

  function Amount(e: TrafficEntry, side: Side): int {
    if side == Input then e.bytesIn else e.bytesOut
  }

  function AmountOf(c: Credit, side: Side): int {
    if c.side == side then c.bytes else 0
  }

  /** Bytes of all credits ever made at seconds no earlier than `from`. */
  ghost function WindowTotal(h: seq<Credit>, from: int, side: Side): int {
    if h == [] then 0
    else WindowTotal(h[..|h| - 1], from, side) +
         (if h[|h| - 1].at >= from then AmountOf(h[|h| - 1], side) else 0)
  }

  /** Bytes of all credits made at exactly second `t`. */
  ghost function SecondTotal(h: seq<Credit>, t: int, side: Side): int {
    if h == [] then 0
    else SecondTotal(h[..|h| - 1], t, side) +
         (if h[|h| - 1].at == t then AmountOf(h[|h| - 1], side) else 0)
  }

  /** The clock never goes back between credits. */
  ghost predicate Monotone(h: seq<Credit>) {
    forall i, j :: 0 <= i < j < |h| ==> h[i].at <= h[j].at
  }

  ghost predicate NoneAfter(h: seq<Credit>, now: int) {
    forall i :: 0 <= i < |h| ==> h[i].at <= now
  }

  ghost predicate StrictlyIncreasing(ring: seq<TrafficEntry>) {
    forall i, j :: 0 <= i < j < |ring| ==> ring[i].timestamp < ring[j].timestamp
  }

  // ------------------------------------------------------------ window query

  /** The accumulating loop of analyseStats. */
  function SumFrom(ring: seq<TrafficEntry>, from: int, side: Side): int {
    if ring == [] then 0
    else SumFrom(ring[..|ring| - 1], from, side) +
         (if ring[|ring| - 1].timestamp < from then 0 else Amount(ring[|ring| - 1], side))
  }

  /** Go's integer division, which truncates toward zero. */
  function Quot(a: int, b: int): int
    requires b != 0
  {
    if a >= 0 then a / b else -((-a) / b)
  }

  /** analyseStats at second `now`; a zero window leaves the old figures. */
  function Analysed(ring: seq<TrafficEntry>, now: int, sec: int, old_: TrafficStats): TrafficStats {
    if sec == 0 then old_
    else
      var i := SumFrom(ring, now - sec, Input);
      var o := SumFrom(ring, now - sec, Output);
      TrafficStats(i, o, Quot(i, sec), Quot(o, sec))
  }

  // ------------------------------------------------- the ring is a histogram

  /** The seconds that shrink has dropped in the course of a history. */
  function ShedOf(h: seq<Credit>): seq<TrafficEntry> {
    if h == [] then [] else ShedOf(h[..|h| - 1]) + Dropped(RingOf(h[..|h| - 1]))
  }

  /** What shrink drops from a ring. */
  function Dropped(ring: seq<TrafficEntry>): seq<TrafficEntry> {
    if |ring| >= MAX_RING_SIZE then ring[..1] else []
  }

  /** The ring and what was shed before it make up the whole histogram; the ring
      has never more than 61 seconds, and at least 60 once any has been shed. */
  ghost predicate NewestOf(shed: seq<TrafficEntry>, ring: seq<TrafficEntry>, hist: seq<TrafficEntry>) {
    && hist == shed + ring
    && |ring| <= 61
    && (shed != [] ==> |ring| >= 60)
  }

  /** The ring is always the newest part of the histogram of all credits. */
  lemma {:induction false} RingIsNewest(h: seq<Credit>)
    ensures NewestOf(ShedOf(h), RingOf(h), HistogramOf(h))
  {
    if h != [] {
      var p := h[..|h| - 1];
      RingIsNewest(p);
      CreditKeepsNewest(ShedOf(p), RingOf(p), HistogramOf(p), h[|h| - 1]);
    }
  }

  lemma CreditKeepsNewest(shed: seq<TrafficEntry>, ring: seq<TrafficEntry>, hist: seq<TrafficEntry>, c: Credit)
    requires NewestOf(shed, ring, hist)
    ensures NewestOf(shed + Dropped(ring), CreditRing(ring, c), Merged(hist, c))
  {
    var gone, kept := shed + Dropped(ring), Shrunk(ring);
    assert ring == Dropped(ring) + kept;
    assert hist == gone + kept;
    MergedBehind(gone, kept, c);
  }

  /** A credit changes only the end of a ring. */
  lemma MergedBehind(a: seq<TrafficEntry>, b: seq<TrafficEntry>, c: Credit)
    requires b != [] || a == []
    ensures Merged(a + b, c) == a + Merged(b, c)
  {
    if b == [] {
      assert a + b == [];
    } else {
      assert (a + b)[|a + b| - 1] == b[|b| - 1];
      assert (a + b)[..|a + b| - 1] == a + b[..|b| - 1];
    }
  }

  ghost predicate EndsAt(ring: seq<TrafficEntry>, t: int) {
    ring != [] && ring[|ring| - 1].timestamp == t
  }

  /** Histogram seconds strictly increase and end at the newest credit. */
  lemma {:induction false} HistogramOrder(h: seq<Credit>)
    requires Monotone(h)
    ensures StrictlyIncreasing(HistogramOf(h))
    ensures h != [] ==> EndsAt(HistogramOf(h), h[|h| - 1].at)
  {
    if h != [] {
      var p := h[..|h| - 1];
      HistogramOrder(p);
      MergedOrder(HistogramOf(p), h[|h| - 1], if p == [] then h[|h| - 1].at else p[|p| - 1].at);
    }
  }

  lemma MergedOrder(ring: seq<TrafficEntry>, c: Credit, last: int)
    requires StrictlyIncreasing(ring)
    requires last <= c.at && (ring == [] || EndsAt(ring, last))
    ensures StrictlyIncreasing(Merged(ring, c)) && EndsAt(Merged(ring, c), c.at)
  {
  }

  function Seconds(ring: seq<TrafficEntry>): set<int> {
    set e | e in ring :: e.timestamp
  }

  function CreditSeconds(h: seq<Credit>): set<int> {
    set c | c in h :: c.at
  }

  /** Each histogram entry holds exactly its second's totals. */
  ghost predicate TotalsAgree(ring: seq<TrafficEntry>, h: seq<Credit>) {
    forall i, side :: 0 <= i < |ring| ==> Amount(ring[i], side) == SecondTotal(h, ring[i].timestamp, side)
  }

  /** What the histogram means: one entry for every second credited, in order,
      holding exactly that second's totals. */
  lemma HistogramMeaning(h: seq<Credit>)
    requires Monotone(h)
    ensures StrictlyIncreasing(HistogramOf(h))
    ensures Seconds(HistogramOf(h)) == CreditSeconds(h)
    ensures TotalsAgree(HistogramOf(h), h)
  {
    HistogramOrder(h);
    HistogramSeconds(h);
    HistogramTotals(h);
  }

  lemma {:induction false} HistogramSeconds(h: seq<Credit>)
    ensures Seconds(HistogramOf(h)) == CreditSeconds(h)
  {
    if h != [] {
      var p, c := h[..|h| - 1], h[|h| - 1];
      HistogramSeconds(p);
      MergedSeconds(HistogramOf(p), c);
      CreditSecondsAppend(p, c);
      assert h == p + [c];
    }
  }

  lemma CreditSecondsAppend(p: seq<Credit>, c: Credit)
    ensures CreditSeconds(p + [c]) == CreditSeconds(p) + {c.at}
  {
  }

  lemma {:induction false} HistogramTotals(h: seq<Credit>)
    requires Monotone(h)
    ensures TotalsAgree(HistogramOf(h), h)
  {
    if h != [] {
      var p, c := h[..|h| - 1], h[|h| - 1];
      HistogramTotals(p);
      NextTotals(p, c);
      assert h == p + [c];
    }
  }

  lemma NextTotals(p: seq<Credit>, c: Credit)
    requires Monotone(p + [c]) && TotalsAgree(HistogramOf(p), p)
    ensures TotalsAgree(HistogramOf(p + [c]), p + [c])
  {
    var hist, last := HistogramOf(p), if p == [] then c.at else p[|p| - 1].at;
    assert Monotone(p) && last <= c.at by { MonotonePrefix(p, c); }
    assert Seconds(hist) == CreditSeconds(p) by { HistogramSeconds(p); }
    assert StrictlyIncreasing(hist) && (hist == [] || EndsAt(hist, last)) by { HistogramOrder(p); }
    TotalsStep(hist, p, c, last);
    Snoc(p, c);
  }

  lemma MonotonePrefix(p: seq<Credit>, c: Credit)
    requires Monotone(p + [c])
    ensures Monotone(p) && (p != [] ==> p[|p| - 1].at <= c.at)
  {
    var h := p + [c];
    assert forall i :: 0 <= i < |p| ==> h[i] == p[i];
    assert h[|p|] == c;
  }

  lemma TotalsStep(hist: seq<TrafficEntry>, p: seq<Credit>, c: Credit, last: int)
    requires TotalsAgree(hist, p) && StrictlyIncreasing(hist) && Seconds(hist) == CreditSeconds(p)
    requires last <= c.at && (hist == [] || EndsAt(hist, last))
    ensures TotalsAgree(Merged(hist, c), p + [c])
  {
    NoCreditNoTotal(p, c.at);
    if hist != [] && last < c.at {
      LastIsLatest(hist, last, c.at);
    }
    MergedTotals(hist, p, c);
  }

  lemma LastIsLatest(ring: seq<TrafficEntry>, last: int, t: int)
    requires StrictlyIncreasing(ring) && EndsAt(ring, last) && last < t
    ensures t !in Seconds(ring)
  {
  }

  lemma MergedSeconds(ring: seq<TrafficEntry>, c: Credit)
    ensures Seconds(Merged(ring, c)) == Seconds(ring) + {c.at}
  {
  }

  lemma MergedTotals(ring: seq<TrafficEntry>, p: seq<Credit>, c: Credit)
    requires TotalsAgree(ring, p) && StrictlyIncreasing(ring)
    requires EndsAt(ring, c.at) || c.at !in Seconds(ring)
    requires c.at !in Seconds(ring) ==> SecondTotal(p, c.at, Input) == 0 && SecondTotal(p, c.at, Output) == 0
    ensures TotalsAgree(Merged(ring, c), p + [c])
  {
  }

  lemma {:induction false} NoCreditNoTotal(h: seq<Credit>, t: int)
    ensures t !in CreditSeconds(h) ==> SecondTotal(h, t, Input) == 0 && SecondTotal(h, t, Output) == 0
  {
    if h != [] {
      var p, c := h[..|h| - 1], h[|h| - 1];
      NoCreditNoTotal(p, t);
      assert h == p + [c];
      assert c in h && forall x :: x in p ==> x in h;
    }
  }

  // ------------------------------------------------------- window exactness

  /** Every window query on the histogram answers for the whole history. */
  lemma {:induction false} HistogramWindow(h: seq<Credit>, from: int, side: Side)
    ensures SumFrom(HistogramOf(h), from, side) == WindowTotal(h, from, side)
  {
    if h != [] {
      HistogramWindow(h[..|h| - 1], from, side);
      MergedSum(HistogramOf(h[..|h| - 1]), h[|h| - 1], from, side);
    }
  }

  lemma MergedSum(ring: seq<TrafficEntry>, c: Credit, from: int, side: Side)
    ensures SumFrom(Merged(ring, c), from, side) ==
            SumFrom(ring, from, side) + if c.at >= from then AmountOf(c, side) else 0
  {
    var m := Merged(ring, c);
    if |m| == |ring| {
      assert m[..|m| - 1] == ring[..|ring| - 1];
    } else {
      assert m[..|m| - 1] == ring;
    }
  }

  lemma {:induction false} SumFromSplit(a: seq<TrafficEntry>, b: seq<TrafficEntry>, from: int, side: Side)
    ensures SumFrom(a + b, from, side) == SumFrom(a, from, side) + SumFrom(b, from, side)
  {
    if b == [] {
      assert a + b == a;
    } else {
      SumFromSplit(a, b[..|b| - 1], from, side);
      assert (a + b)[..|a + b| - 1] == a + b[..|b| - 1];
    }
  }

  lemma {:induction false} SumFromOld(ring: seq<TrafficEntry>, from: int, side: Side)
    requires forall i :: 0 <= i < |ring| ==> ring[i].timestamp < from
    ensures SumFrom(ring, from, side) == 0
  {
    if ring != [] {
      SumFromOld(ring[..|ring| - 1], from, side);
    }
  }

  /** Strictly increasing integers spread out: the pigeonhole behind the window. */
  lemma {:induction false} Spread(ring: seq<TrafficEntry>, i: nat, j: nat)
    requires StrictlyIncreasing(ring) && i <= j < |ring|
    ensures ring[i].timestamp + (j - i) <= ring[j].timestamp
    decreases j - i
  {
    if i < j {
      Spread(ring, i + 1, j);
    }
  }

  /** Any window on the ring sums all credits ever made in it, less what was shed of the
      seconds in it. */
  lemma WindowLessShed(h: seq<Credit>, from: int, side: Side)
    ensures SumFrom(RingOf(h), from, side) == WindowTotal(h, from, side) - SumFrom(ShedOf(h), from, side)
  {
    RingIsNewest(h);
    SumFromSplit(ShedOf(h), RingOf(h), from, side);
    HistogramWindow(h, from, side);
  }

  /** What was shed is the oldest part of the histogram, whole seconds each. */
  lemma ShedSecondsWhole(h: seq<Credit>, i: nat, side: Side)
    requires Monotone(h) && i < |ShedOf(h)|
    ensures Amount(ShedOf(h)[i], side) == SecondTotal(h, ShedOf(h)[i].timestamp, side)
  {
    RingIsNewest(h);
    HistogramTotals(h);
    assert HistogramOf(h)[i] == ShedOf(h)[i];
  }

  /** Nothing that falls in the window has been shed. */
  ghost predicate NothingShedSince(h: seq<Credit>, from: int) {
    forall i :: 0 <= i < |ShedOf(h)| ==> ShedOf(h)[i].timestamp < from
  }

  ghost predicate NonNegative(h: seq<Credit>) {
    forall i :: 0 <= i < |h| ==> h[i].bytes >= 0
  }

  lemma {:induction false} NonNegativeTotal(h: seq<Credit>, t: int, side: Side)
    requires NonNegative(h)
    ensures SecondTotal(h, t, side) >= 0
  {
    if h != [] {
      NonNegativeTotal(h[..|h| - 1], t, side);
    }
  }

  lemma {:induction false} SumFromNonNegative(ring: seq<TrafficEntry>, from: int, side: Side)
    requires forall i :: 0 <= i < |ring| ==> Amount(ring[i], side) >= 0
    ensures SumFrom(ring, from, side) >= 0
  {
    if ring != [] {
      SumFromNonNegative(ring[..|ring| - 1], from, side);
    }
  }

  lemma ShedNonNegative(h: seq<Credit>, from: int, side: Side)
    requires Monotone(h) && NonNegative(h)
    ensures SumFrom(ShedOf(h), from, side) >= 0
  {
    forall i | 0 <= i < |ShedOf(h)| ensures Amount(ShedOf(h)[i], side) >= 0 {
      ShedSecondsWhole(h, i, side);
      NonNegativeTotal(h, ShedOf(h)[i].timestamp, side);
    }
    SumFromNonNegative(ShedOf(h), from, side);
  }

  /** The figure of one side is what a history credited in the window, less what was shed
      of the seconds in it: exact if nothing in the window was shed, and never more than
      was credited if no credit is negative. */
  ghost predicate FigureOf(figure: int, h: seq<Credit>, from: int, side: Side) {
    && figure == WindowTotal(h, from, side) - SumFrom(ShedOf(h), from, side)
    && (NothingShedSince(h, from) ==> figure == WindowTotal(h, from, side))
    && (Monotone(h) && NonNegative(h) ==> figure <= WindowTotal(h, from, side))
  }

  lemma WindowFigure(h: seq<Credit>, from: int, side: Side)
    ensures FigureOf(SumFrom(RingOf(h), from, side), h, from, side)
  {
    WindowLessShed(h, from, side);
    if NothingShedSince(h, from) {
      SumFromOld(ShedOf(h), from, side);
    }
    if Monotone(h) && NonNegative(h) {
      ShedNonNegative(h, from, side);
    }
  }

  /** Division by sec that drops the remainder, whatever the signs. */
  ghost predicate Truncated(rate: int, total: int, sec: int) {
    var rest := total - rate * sec;
    var size := if sec < 0 then -sec else sec;
    if total >= 0 then 0 <= rest < size else -size < rest <= 0
  }

  lemma RateTruncates(rate: int, total: int, sec: int)
    requires sec != 0 && rate == Quot(total, sec)
    ensures Truncated(rate, total, sec)
  {
    if total < 0 {
      var q := (-total) / sec;
      assert -q * sec == -(q * sec);
    }
  }

  /** The figures of analyseStats for a window of any length but 0, for every history that
      leads to the ring. */
  ghost predicate Reports(ring: seq<TrafficEntry>, stats: TrafficStats, now: int, sec: int) {
    FiguresAlways(ring, stats, now - sec) && RatesTruncated(stats, sec)
  }

  ghost predicate FiguresAlways(ring: seq<TrafficEntry>, stats: TrafficStats, from: int) {
    FigureAlways(ring, stats.bytesIn, from, Input) && FigureAlways(ring, stats.bytesOut, from, Output)
  }

  ghost predicate FigureAlways(ring: seq<TrafficEntry>, figure: int, from: int, side: Side) {
    forall h :: RingOf(h) == ring ==> FigureOf(figure, h, from, side)
  }

  ghost predicate RatesTruncated(stats: TrafficStats, sec: int) {
    Truncated(stats.inRate, stats.bytesIn, sec) && Truncated(stats.outRate, stats.bytesOut, sec)
  }

  lemma EveryHistory(ring: seq<TrafficEntry>, from: int, side: Side)
    ensures FigureAlways(ring, SumFrom(ring, from, side), from, side)
  {
    forall h | RingOf(h) == ring ensures FigureOf(SumFrom(ring, from, side), h, from, side) {
      WindowFigure(h, from, side);
    }
  }

  lemma SumsAreFigures(ring: seq<TrafficEntry>, stats: TrafficStats, from: int)
    requires stats.bytesIn == SumFrom(ring, from, Input) && stats.bytesOut == SumFrom(ring, from, Output)
    ensures FiguresAlways(ring, stats, from)
  {
    EveryHistory(ring, from, Input);
    EveryHistory(ring, from, Output);
  }

  lemma QuotientsTruncate(stats: TrafficStats, sec: int)
    requires sec != 0 && stats.inRate == Quot(stats.bytesIn, sec) && stats.outRate == Quot(stats.bytesOut, sec)
    ensures RatesTruncated(stats, sec)
  {
    RateTruncates(stats.inRate, stats.bytesIn, sec);
    RateTruncates(stats.outRate, stats.bytesOut, sec);
  }

  lemma AnalysedParts(ring: seq<TrafficEntry>, now: int, sec: int, old_: TrafficStats)
    requires sec != 0
    ensures var stats := Analysed(ring, now, sec, old_);
            && stats.bytesIn == SumFrom(ring, now - sec, Input) && stats.bytesOut == SumFrom(ring, now - sec, Output)
            && stats.inRate == Quot(stats.bytesIn, sec) && stats.outRate == Quot(stats.bytesOut, sec)
  {
  }

  lemma FiguresReport(ring: seq<TrafficEntry>, stats: TrafficStats, now: int, sec: int)
    requires FiguresAlways(ring, stats, now - sec) && RatesTruncated(stats, sec)
    ensures Reports(ring, stats, now, sec)
  {
  }

  /** What analyseStats computes: nothing for a zero window, else totals less shed seconds,
      and their truncated quotients. */
  lemma AnalysedReports(ring: seq<TrafficEntry>, now: int, sec: int, old_: TrafficStats)
    ensures sec == 0 ==> Analysed(ring, now, sec, old_) == old_
    ensures sec != 0 ==> Reports(ring, Analysed(ring, now, sec, old_), now, sec)
  {
    if sec != 0 {
      var stats := Analysed(ring, now, sec, old_);
      AnalysedParts(ring, now, sec, old_);
      SumsAreFigures(ring, stats, now - sec);
      QuotientsTruncate(stats, sec);
      FiguresReport(ring, stats, now, sec);
    }
  }

  /** A window of at most 59 seconds misses nothing that was ever credited,
      although older seconds have been shed. */
  lemma WindowExact(h: seq<Credit>, now: int, sec: int, side: Side)
    requires Monotone(h) && NoneAfter(h, now)
    requires sec <= 59
    ensures SumFrom(RingOf(h), now - sec, side) == WindowTotal(h, now - sec, side)
  {
    ShedIsOld(h, now, sec, side);
    HistogramWindow(h, now - sec, side);
  }

  lemma ShedIsOld(h: seq<Credit>, now: int, sec: int, side: Side)
    requires Monotone(h) && NoneAfter(h, now) && sec <= 59
    ensures SumFrom(RingOf(h), now - sec, side) == SumFrom(HistogramOf(h), now - sec, side)
  {
    if h != [] {
      var last := h[|h| - 1].at;
      assert last <= now;
      assert NewestOf(ShedOf(h), RingOf(h), HistogramOf(h)) by { RingIsNewest(h); }
      assert StrictlyIncreasing(HistogramOf(h)) && EndsAt(HistogramOf(h), last) by { HistogramOrder(h); }
      NewestWindow(ShedOf(h), RingOf(h), HistogramOf(h), last, now, sec, side);
    }
  }

  lemma NewestWindow(shed: seq<TrafficEntry>, ring: seq<TrafficEntry>, hist: seq<TrafficEntry>,
                     last: int, now: int, sec: int, side: Side)
    requires NewestOf(shed, ring, hist) && StrictlyIncreasing(hist)
    requires last <= now && EndsAt(hist, last)
    requires sec <= 59
    ensures SumFrom(ring, now - sec, side) == SumFrom(hist, now - sec, side)
  {
    SumFromSplit(shed, ring, now - sec, side);
    forall i | 0 <= i < |shed| ensures shed[i].timestamp < now - sec {
      assert shed[i] == hist[i];
      Spread(hist, i, |hist| - 1);
    }
    SumFromOld(shed, now - sec, side);
  }

  lemma RingWindow(ring: seq<TrafficEntry>, h: seq<Credit>, now: int, sec: int, side: Side)
    requires ring == RingOf(h) && Monotone(h) && NoneAfter(h, now) && sec <= 59
    ensures SumFrom(ring, now - sec, side) == WindowTotal(h, now - sec, side)
  {
    WindowExact(h, now, sec, side);
  }

  ghost predicate ExactOn(h: seq<Credit>, now: int, sec: int, side: Side) {
    SumFrom(RingOf(h), now - sec, side) == WindowTotal(h, now - sec, side)
  }

  /** Every history under a monotone clock is answered exactly. */
  ghost predicate AlwaysExact(sec: int) {
    forall h: seq<Credit>, now: int, side: Side ::
      Monotone(h) && NoneAfter(h, now) ==> ExactOn(h, now, sec, side)
  }

  /** The bound is tight: exactly the windows of at most 59 seconds are exact.
      GetProcessRank admits 60 and 61. */
  lemma ExactIffWithinBound(sec: int)
    ensures AlwaysExact(sec) <==> sec <= 59
  {
    if sec <= 59 {
      forall h: seq<Credit>, now: int, side: Side | Monotone(h) && NoneAfter(h, now)
        ensures ExactOn(h, now, sec, side)
      {
        WindowExact(h, now, sec, side);
      }
    } else {
      UnderReport(sec);
      var h := Ramp(61) + [Credit(60, Input, 1)];
      assert !ExactOn(h, 60, sec, Input);
    }
  }

  /** One input byte in each of the seconds 0, 1, ... n-1. */
  function Ramp(n: nat): (h: seq<Credit>)
    ensures |h| == n && forall i :: 0 <= i < n ==> h[i] == Credit(i, Input, 1)
  {
    seq(n, i => Credit(i, Input, 1))
  }

  function RampEntries(n: nat): (r: seq<TrafficEntry>)
    ensures |r| == n && forall i :: 0 <= i < n ==> r[i] == TrafficEntry(i, 1, 0)
  {
    seq(n, i => TrafficEntry(i, 1, 0))
  }

  lemma RampStep(n: nat)
    ensures Ramp(n + 1) == Ramp(n) + [Credit(n, Input, 1)]
    ensures Merged(RampEntries(n), Credit(n, Input, 1)) == RampEntries(n + 1)
  {
  }

  lemma Snoc(h: seq<Credit>, c: Credit)
    ensures RingOf(h + [c]) == CreditRing(RingOf(h), c) && HistogramOf(h + [c]) == Merged(HistogramOf(h), c)
  {
  }

  /** Up to 61 seconds nothing is shed. */
  lemma {:induction false} RampRing(n: nat)
    requires n <= MAX_RING_SIZE
    ensures RingOf(Ramp(n)) == RampEntries(n) == HistogramOf(Ramp(n))
  {
    if n > 0 {
      RampRing(n - 1);
      RampStep(n - 1);
      Snoc(Ramp(n - 1), Credit(n - 1, Input, 1));
    }
  }

  /** A 62nd byte in the newest second sheds second 0 and opens no new one, so a
      window of 60 seconds or more reports one byte too few. */
  lemma UnderReport(sec: int)
    requires sec >= 60
    ensures var h := Ramp(61) + [Credit(60, Input, 1)];
            && Monotone(h) && NoneAfter(h, 60)
            && SumFrom(RingOf(h), 60 - sec, Input) == WindowTotal(h, 60 - sec, Input) - 1 == 61
  {
    var r, c := Ramp(61), Credit(60, Input, 1);
    var h, from := r + [c], 60 - sec;
    assert h[..|h| - 1] == r;
    RampRing(61);
    HistogramWindow(r, from, Input);
    RampSum(61, from);
    var ring := RampEntries(61);
    assert ring == [ring[0]] + ring[1..];
    SumFromSplit([ring[0]], ring[1..], from, Input);
    MergedSum(ring[1..], c, from, Input);
  }

  lemma {:induction false} RampSum(n: nat, from: int)
    requires from <= 0
    ensures SumFrom(RampEntries(n), from, Input) == n
  {
    if n > 0 {
      RampSum(n - 1, from);
      assert RampEntries(n)[..n - 1] == RampEntries(n - 1);
    }
  }

  /** The same of the figures: 62 bytes were credited and every window that reaches back
      to second 0 reports 61. */
  lemma UnderReportedStats(sec: int, old_: TrafficStats)
    requires sec >= 60
    ensures var h := Ramp(61) + [Credit(60, Input, 1)];
            && WindowTotal(h, 60 - sec, Input) == 62
            && Analysed(RingOf(h), 60, sec, old_).bytesIn == 61
  {
    UnderReport(sec);
  }

  // ------------------------------------------------------------- rate bound

  /** At most n entries of a ring fall in a window of n seconds, whose sum is
      therefore bounded by n times the busiest second. */
  lemma {:induction false} WindowSumBound(ring: seq<TrafficEntry>, from: int, n: nat, side: Side, r: nat)
    requires StrictlyIncreasing(ring)
    requires forall i :: 0 <= i < |ring| ==> ring[i].timestamp < from + n && 0 <= Amount(ring[i], side) <= r
    ensures 0 <= SumFrom(ring, from, side) <= n * r
    ensures InWindow(ring, from) <= n
  {
    if ring != [] {
      var p, top := ring[..|ring| - 1], ring[|ring| - 1].timestamp;
      var m := if top < from then n else top - from;
      WindowSumBound(p, from, m, side, r);
      if top >= from {
        assert (m + 1) * r == m * r + r;
        MulMonotone(m + 1, n, r);
      }
    }
  }

  lemma MulMonotone(a: int, b: int, r: nat)
    requires a <= b
    ensures a * r <= b * r
  {
  }

  /** How many entries of a ring fall in the window. */
  function InWindow(ring: seq<TrafficEntry>, from: int): nat {
    if ring == [] then 0
    else InWindow(ring[..|ring| - 1], from) + if ring[|ring| - 1].timestamp < from then 0 else 1
  }

  lemma QuotBound(total: int, sec: int, r: nat)
    requires sec >= 1 && 0 <= total <= (sec + 1) * r
    ensures 0 <= total - Quot(total, sec) * sec < sec
    ensures Quot(total, sec) <= r + r / sec
  {
    var q, b := total / sec, r / sec;
    assert q * sec <= total && r < b * sec + sec;
    QuotientCap(q, b, sec, r);
  }

  lemma QuotientCap(q: int, b: int, sec: int, r: nat)
    requires sec >= 1 && q * sec <= (sec + 1) * r && r < b * sec + sec
    ensures q <= r + b
  {
    assert (r + b + 1) * sec == r * sec + b * sec + sec;
    assert (sec + 1) * r == r * sec + r;
    if q > r + b {
      MulMonotone(r + b + 1, q, sec);
    }
  }

  /** No second carries more than r bytes of a side. */
  ghost predicate BusiestSecond(h: seq<Credit>, side: Side, r: nat) {
    forall t :: 0 <= SecondTotal(h, t, side) <= r
  }

  /** If no second carries more than r bytes of a side, the rate analyseStats reports
      for that side is at most r + r/sec, and it is the window's total divided
      downwards; at most sec+1 entries fall in the window. */
  lemma RateBound(h: seq<Credit>, now: int, sec: int, side: Side, r: nat, old_: TrafficStats)
    requires Monotone(h) && NoneAfter(h, now) && sec >= 1 && BusiestSecond(h, side, r)
    ensures var stats := Analysed(RingOf(h), now, sec, old_);
            var total := if side == Input then stats.bytesIn else stats.bytesOut;
            var rate := if side == Input then stats.inRate else stats.outRate;
            && total == SumFrom(RingOf(h), now - sec, side)
            && 0 <= total - rate * sec < sec
            && rate <= r + r / sec
    ensures InWindow(RingOf(h), now - sec) <= sec + 1
  {
    HistoryRate(h, now, sec, side, r);
  }

  lemma HistoryRate(h: seq<Credit>, now: int, sec: int, side: Side, r: nat)
    requires Monotone(h) && NoneAfter(h, now) && sec >= 1 && BusiestSecond(h, side, r)
    ensures var total := SumFrom(RingOf(h), now - sec, side);
            && 0 <= total - Quot(total, sec) * sec < sec
            && Quot(total, sec) <= r + r / sec
    ensures InWindow(RingOf(h), now - sec) <= sec + 1
  {
    RingBounded(h, now, side, r);
    RingRate(RingOf(h), now, sec, side, r);
  }

  ghost predicate Bounded(ring: seq<TrafficEntry>, now: int, side: Side, r: nat) {
    forall i :: 0 <= i < |ring| ==> ring[i].timestamp <= now && 0 <= Amount(ring[i], side) <= r
  }

  lemma RingRate(ring: seq<TrafficEntry>, now: int, sec: int, side: Side, r: nat)
    requires StrictlyIncreasing(ring) && Bounded(ring, now, side, r) && sec >= 1
    ensures var total := SumFrom(ring, now - sec, side);
            && 0 <= total - Quot(total, sec) * sec < sec
            && Quot(total, sec) <= r + r / sec
    ensures InWindow(ring, now - sec) <= sec + 1
  {
    WindowSumBound(ring, now - sec, sec + 1, side, r);
    QuotBound(SumFrom(ring, now - sec, side), sec, r);
  }

  lemma RingBounded(h: seq<Credit>, now: int, side: Side, r: nat)
    requires Monotone(h) && NoneAfter(h, now) && BusiestSecond(h, side, r)
    ensures StrictlyIncreasing(RingOf(h)) && Bounded(RingOf(h), now, side, r)
  {
    RingIsNewest(h);
    HistogramTotals(h);
    HistogramOrder(h);
    var last := if h == [] then now else h[|h| - 1].at;
    HistogramBounded(HistogramOf(h), h, last, now, side, r);
    SuffixBounded(ShedOf(h), RingOf(h), now, side, r);
  }

  lemma HistogramBounded(hist: seq<TrafficEntry>, h: seq<Credit>, last: int, now: int, side: Side, r: nat)
    requires StrictlyIncreasing(hist) && TotalsAgree(hist, h) && BusiestSecond(h, side, r)
    requires last <= now && (hist == [] || EndsAt(hist, last))
    ensures Bounded(hist, now, side, r)
  {
  }

  lemma SuffixBounded(shed: seq<TrafficEntry>, ring: seq<TrafficEntry>, now: int, side: Side, r: nat)
    requires StrictlyIncreasing(shed + ring) && Bounded(shed + ring, now, side, r)
    ensures StrictlyIncreasing(ring) && Bounded(ring, now, side, r)
  {
    assert forall i :: 0 <= i < |ring| ==> ring[i] == (shed + ring)[|shed| + i];
  }
}
