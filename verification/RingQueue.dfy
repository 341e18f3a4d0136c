/** The array queue of ringqueue.go: where it is a bounded first-in first-out
    queue, and where it is not. */
module RingQueues {
  import opened Options

  // ------------------------------------------------------ Go's bitwise and

  function BitAnd(x: nat, y: nat): nat
    decreases x
  {
    if x == 0 || y == 0 then 0 else (x % 2) * (y % 2) + 2 * BitAnd(x / 2, y / 2)
  }

  function Pow2(k: nat): nat {
    if k == 0 then 1 else 2 * Pow2(k - 1)
  }

  ghost predicate IsPow2(n: nat) {
    exists k :: n == Pow2(k)
  }

  lemma {:induction false} BitAndBound(x: nat, y: nat)
    ensures BitAnd(x, y) <= y
    decreases x
  {
    if x != 0 && y != 0 {
      BitAndBound(x / 2, y / 2);
    }
  }

  lemma {:induction false} BitAndMask(x: nat, k: nat)
    ensures Pow2(k) >= 1 && BitAnd(x, Pow2(k) - 1) == x % Pow2(k)
    decreases k
  {
    if k > 0 {
      var p := Pow2(k - 1);
      BitAndMask(x / 2, k - 1);
      HalveMask(x, p);
    }
  }

  lemma HalveMask(x: nat, p: nat)
    requires p >= 1
    ensures (2 * p - 1) / 2 == p - 1 && (2 * p - 1) % 2 == 1
    ensures x % (2 * p) == x % 2 + 2 * ((x / 2) % p)
  {
    var h := x / 2;
    var q, r := h / p, h % p;
    assert h == p * q + r;
    assert q * (2 * p) == 2 * (p * q);
    DivisionUnique(x, 2 * p, q, 2 * r + x % 2);
  }

  lemma MulStep(a: nat, b: nat, n: nat)
    requires a < b
    ensures a * n + n <= b * n
  {
    assert (b - a - 1) * n >= 0;
    assert b * n == a * n + n + (b - a - 1) * n;
  }

  lemma DivisionUnique(x: nat, n: nat, q: nat, r: nat)
    requires n >= 1 && r < n && x == q * n + r
    ensures x % n == r
  {
    var d := x / n;
    assert x == d * n + x % n;
    if d > q {
      MulStep(q, d, n);
    } else if d < q {
      MulStep(d, q, n);
    }
  }

  /** The mask moves a head at h to the next slot of n. */
  predicate Advances(h: nat, n: nat)
    requires n > 0
  {
    BitAnd(h + 1, n - 1) == (h + 1) % n
  }

  predicate Unmasked(k: nat, n: nat)
    requires n > 0
  {
    BitAnd(k, n - 1) == k
  }

  // ---------------------------------------------------------- queue as value

  /** An interface value; None is nil. */
  datatype Queue<T> = Queue(buf: seq<Option<T>>, head: nat, tail: nat, count: nat) {
    function N(): nat { |buf| }

    /** Every index the code uses is within the buffer. */
    predicate InBounds() {
      && count <= N()
      && (N() > 0 ==> head < N() && tail < N())
    }

    predicate Full() { count == N() }

    /** Where the tail belongs. */
    predicate Aligned() {
      N() > 0 && tail == (head + count) % N()
    }

    /** The region in which Add moves the tail to where it belongs. */
    predicate AddRegion() {
      || (count + 1 == N() && head == 0)
      || (count + 1 < N() && tail + 1 < N())
    }

    /** Remove moves the head to the next slot. */
    predicate HeadAdvances() {
      N() > 0 && Advances(head, N())
    }

    /** The queued elements, oldest first. */
    ghost function Contents(): seq<Option<T>> {
      if N() == 0 then [] else seq(count, i => if i >= 0 then buf[(head + i) % N()] else None)
    }
  }

  function Empty<T>(size: nat): Queue<T> {
    Queue(seq(size, _ => None), 0, 0, 0)
  }

  /** Add; a full queue is unchanged and refuses. */
  function Added<T>(q: Queue<T>, elem: Option<T>): Queue<T>
    requires q.InBounds()
  {
    if q.Full() then q
    else
      var moved := if q.tail + 1 < q.N() then q.tail + 1 else q.tail;
      Queue(q.buf[q.tail := elem], q.head, if q.count + 1 == q.N() then 0 else moved, q.count + 1)
  }

  function Front<T>(q: Queue<T>): Option<T>
    requires q.InBounds()
  {
    if q.count <= 0 then None else q.buf[q.head]
  }

  /** Remove; an empty queue is unchanged and yields nil. */
  function Removed<T>(q: Queue<T>): Queue<T>
    requires q.InBounds()
  {
    if q.count <= 0 then q
    else Queue(q.buf[q.head := None], BitAnd(q.head + 1, q.N() - 1), q.tail, q.count - 1)
  }

  // ------------------------------------------------------------ single steps

  /** At any capacity the indices stay within the buffer. */
  lemma StepsStayInBounds<T>(q: Queue<T>, elem: Option<T>)
    requires q.InBounds()
    ensures Added(q, elem).InBounds() && Added(q, elem).N() == q.N()
    ensures Removed(q).InBounds() && Removed(q).N() == q.N()
  {
    if q.count > 0 {
      BitAndBound(q.head + 1, q.N() - 1);
    }
  }

  lemma ModStep(a: nat, n: nat)
    requires n > 0
    ensures (a + 1) % n == if a % n + 1 == n then 0 else a % n + 1
  {
    var q, r := a / n, a % n;
    assert a == q * n + r;
    if r + 1 == n {
      assert (q + 1) * n == q * n + n;
      DivisionUnique(a + 1, n, q + 1, 0);
    } else {
      DivisionUnique(a + 1, n, q, r + 1);
    }
  }

  /** Add leaves the tail where it belongs exactly inside the region. */
  lemma AddAlignedIff<T>(q: Queue<T>, elem: Option<T>)
    requires q.InBounds() && q.Aligned() && !q.Full()
    ensures Added(q, elem).Aligned() <==> q.AddRegion()
  {
    ModStep(q.head + q.count, q.N());
    if q.count + 1 == q.N() {
      DivisionUnique(q.head + q.N(), q.N(), 1, q.head);
    }
  }

  /** Remove keeps the tail where it belongs exactly when it moves the head to the next
      slot or has nothing to remove; when it does, a misplaced tail stays misplaced. */
  lemma RemoveAlignedIff<T>(q: Queue<T>)
    requires q.InBounds() && q.N() > 0
    ensures q.Aligned() ==> (Removed(q).Aligned() <==> q.count == 0 || q.HeadAdvances())
    ensures q.count == 0 || q.HeadAdvances() ==> (Removed(q).Aligned() <==> q.Aligned())
  {
    if q.count > 0 {
      BitAndBound(q.head + 1, q.N() - 1);
      SameTail(q, Removed(q));
    }
  }

  lemma SameTail<T>(q: Queue<T>, r: Queue<T>)
    requires q.InBounds() && r.InBounds() && q.N() == r.N() > 0 && r.tail == q.tail && r.count + 1 == q.count
    ensures q.Aligned() ==> (r.Aligned() <==> r.head == (q.head + 1) % q.N())
    ensures r.head == (q.head + 1) % q.N() ==> (r.Aligned() <==> q.Aligned())
  {
    SameLastSlot(q.head, r.head, q.count, q.N());
  }

  /** A range of slots shortened at its head ends where it did exactly when the head
      moves by one. */
  lemma SameLastSlot(head: nat, next: nat, count: nat, n: nat)
    requires head < n && next < n && 1 <= count <= n
    ensures (head + count) % n == (next + (count - 1)) % n <==> next == (head + 1) % n
  {
    Wrap(head + 1, n);
    Wrap(head + count, n);
    Wrap(next + (count - 1), n);
  }

  lemma Wrap(x: nat, n: nat)
    requires x < 2 * n
    ensures x % n == if x < n then x else x - n
  {
    DivisionUnique(x, n, if x < n then 0 else 1, if x < n then x else x - n);
  }

  /** The mask moves every head to the next slot exactly at power-of-two capacities. */
  lemma MaskAdvancesIff(n: nat)
    requires n > 0
    ensures (forall h: nat :: h < n ==> Advances(h, n)) <==> IsPow2(n)
  {
    if IsPow2(n) {
      forall h: nat | h < n ensures Advances(h, n) {
        MaskedNext(h, n);
      }
    } else {
      var h := LostHead(n);
      Wrap(h, n);
      assert !Advances(h - 1, n);
    }
  }

  lemma MaskedNext(h: nat, n: nat)
    requires IsPow2(n)
    ensures n > 0 && Advances(h, n)
  {
    var k: nat :| n == Pow2(k);
    BitAndMask(h + 1, k);
  }

  /** At any other capacity the mask misses some slot before the last. */
  lemma LostHead(n: nat) returns (h: nat)
    requires n > 0 && !IsPow2(n)
    ensures 1 <= h && h + 1 < n && BitAnd(h, n - 1) < h
    ensures forall k: nat :: 1 <= k < h ==> Unmasked(k, n)
  {
    if forall k: nat :: 1 <= k < n ==> Unmasked(k, n) {
      AllUnmaskedIsPow2(n);
    }
    h := 1;
    while Unmasked(h, n)
      invariant 1 <= h < n && forall k: nat :: 1 <= k < h ==> Unmasked(k, n)
      decreases n - h
    {
      assert exists k: nat :: 1 <= k < n && !Unmasked(k, n);
      h := h + 1;
    }
    BitAndLeft(h, n - 1);
    BitAndSame(n - 1);
  }

  lemma {:induction false} BitAndLeft(x: nat, y: nat)
    ensures BitAnd(x, y) <= x
    decreases x
  {
    if x != 0 && y != 0 {
      BitAndLeft(x / 2, y / 2);
    }
  }

  lemma {:induction false} BitAndSame(x: nat)
    ensures BitAnd(x, x) == x
    decreases x
  {
    if x != 0 {
      BitAndSame(x / 2);
    }
  }

  /** A mask that changes no smaller number is that of a power of two. */
  lemma {:induction false} AllUnmaskedIsPow2(n: nat)
    requires n > 0 && forall k: nat :: 1 <= k < n ==> Unmasked(k, n)
    ensures IsPow2(n)
    decreases n
  {
    if n == 1 {
      assert n == Pow2(0);
    } else {
      assert Unmasked(1, n);
      var m := n / 2;
      assert n == 2 * m && (n - 1) / 2 == m - 1;
      forall k: nat | 1 <= k < m ensures Unmasked(k, m) {
        assert Unmasked(2 * k, n);
      }
      AllUnmaskedIsPow2(m);
      var j: nat :| m == Pow2(j);
      assert n == Pow2(j + 1);
    }
  }

  lemma SlotsDiffer(head: nat, i: nat, j: nat, n: nat)
    requires head < n && i < j < n
    ensures (head + i) % n != (head + j) % n
  {
    Slot(head, i, n);
    Slot(head, j, n);
  }

  lemma Slot(head: nat, i: nat, n: nat)
    requires head < n && i < n
    ensures (head + i) % n == if head + i < n then head + i else head + i - n
  {
  }

  /** An aligned queue takes an element at the back. */
  lemma AddAppends<T>(q: Queue<T>, elem: Option<T>)
    requires q.InBounds() && q.Aligned()
    ensures Added(q, elem).Contents() == if q.Full() then q.Contents() else q.Contents() + [elem]
  {
    if !q.Full() {
      var r := Added(q, elem);
      forall i | 0 <= i < r.count ensures r.Contents()[i] == (q.Contents() + [elem])[i] {
        if i < q.count {
          SlotsDiffer(q.head, i, q.count, q.N());
        }
      }
    }
  }

  /** Add appends, whatever the element. */
  ghost predicate Appends<T(!new)>(q: Queue<T>)
    requires q.InBounds()
  {
    forall e: Option<T> :: Added(q, e).Contents() == q.Contents() + [e]
  }

  /** Add appends to a queue with room exactly when the tail is where it belongs. */
  lemma AppendsIffAligned<T(!new,00)>(q: Queue<T>)
    requires q.InBounds() && !q.Full()
    ensures Appends(q) <==> q.Aligned()
  {
    if q.Aligned() {
      forall e: Option<T> ensures Added(q, e).Contents() == q.Contents() + [e] {
        AddAppends(q, e);
      }
    } else {
      var x: T :| true;
      var e := if q.buf[(q.head + q.count) % q.N()] == None then Some(x) else None;
      assert Added(q, e).Contents()[q.count] == q.buf[(q.head + q.count) % q.N()];
      assert (q.Contents() + [e])[q.count] == e;
    }
  }

  /** Remove drops the front, whatever the buffer holds. */
  ghost predicate DropsFront<T(!new)>(q: Queue<T>)
    requires q.InBounds() && q.count > 0
  {
    forall b: seq<Option<T>> :: |b| == q.N() ==> DropsFrontOf(q.(buf := b))
  }

  ghost predicate DropsFrontOf<T>(q: Queue<T>)
    requires q.InBounds() && q.count > 0
  {
    Removed(q).Contents() == q.Contents()[1..]
  }

  /** Remove yields the oldest element. */
  lemma FrontIsOldest<T>(q: Queue<T>)
    requires q.InBounds() && q.count > 0
    ensures Front(q) == q.Contents()[0]
  {
    Slot(q.head, 0, q.N());
  }

  /** Remove drops the oldest element, whatever the buffer holds, exactly when it moves
      the head to the next slot or empties the queue. */
  lemma RemoveDropsFrontIff<T(!new,00)>(q: Queue<T>)
    requires q.InBounds() && q.count > 0
    ensures DropsFront(q) <==> q.count == 1 || q.HeadAdvances()
  {
    if q.count == 1 || q.HeadAdvances() {
      DropsAnyFront(q);
    } else {
      var x: T :| true;
      KeepsFront(q, x);
    }
  }

  lemma DropsAnyFront<T(!new)>(q: Queue<T>)
    requires q.InBounds() && q.count > 0 && (q.count == 1 || q.HeadAdvances())
    ensures DropsFront(q)
  {
    forall b: seq<Option<T>> | |b| == q.N() ensures DropsFrontOf(q.(buf := b)) {
      RemoveDropsFront(q.(buf := b));
    }
  }

  /** A buffer that tells the slot behind the head from the one Remove moves to. */
  lemma KeepsFront<T(!new)>(q: Queue<T>, x: T)
    requires q.InBounds() && q.count > 1 && !q.HeadAdvances()
    ensures !DropsFront(q)
  {
    var b := seq(q.N(), i => if i == (q.head + 1) % q.N() then Some(x) else None);
    var p := q.(buf := b);
    var r := Removed(p);
    BitAndBound(p.head + 1, p.N() - 1);
    Slot(r.head, 0, p.N());
    assert p.Contents()[1..][0] == Some(x);
    assert r.Contents()[0] == None;
    assert !DropsFrontOf(q.(buf := b));
  }

  lemma RemoveDropsFront<T>(q: Queue<T>)
    requires q.InBounds() && q.count > 0 && (q.count == 1 || q.HeadAdvances())
    ensures Front(q) == q.Contents()[0] && Removed(q).Contents() == q.Contents()[1..]
  {
    FrontIsOldest(q);
    if q.count == 1 {
      assert q.Contents()[1..] == [];
    } else {
      BitAndBound(q.head + 1, q.N() - 1);
      OneFewer(q, Removed(q));
    }
  }

  lemma OneFewer<T>(q: Queue<T>, r: Queue<T>)
    requires q.InBounds() && r.InBounds() && q.count > 0 && r.buf == q.buf[q.head := None]
    requires r.head == (q.head + 1) % q.N() && r.count + 1 == q.count
    ensures r.Contents() == q.Contents()[1..]
  {
    Wrap(q.head + 1, q.N());
    forall i | 0 <= i < r.count ensures r.Contents()[i] == q.Contents()[i + 1] {
      Slot(q.head, i + 1, q.N());
      Slot(r.head, i, q.N());
    }
  }

  // -------------------------------------------------------------------- runs

  datatype Op<T> = Push(elem: Option<T>) | Pop

  datatype Answer<T> = Accepted | QueueFull | Popped(elem: Option<T>)

  function Step<T>(q: Queue<T>, op: Op<T>): Queue<T>
    requires q.InBounds()
  {
    match op
    case Push(e) => Added(q, e)
    case Pop => Removed(q)
  }

  function Reply<T>(q: Queue<T>, op: Op<T>): Answer<T>
    requires q.InBounds()
  {
    match op
    case Push(_) => if q.Full() then QueueFull else Accepted
    case Pop => Popped(Front(q))
  }

  /** The bounded first-in first-out queue the code is meant to be. */
  function FifoStep<T>(s: seq<Option<T>>, capacity: nat, op: Op<T>): seq<Option<T>> {
    match op
    case Push(e) => if |s| == capacity then s else s + [e]
    case Pop => if s == [] then s else s[1..]
  }

  function FifoReply<T>(s: seq<Option<T>>, capacity: nat, op: Op<T>): Answer<T> {
    match op
    case Push(_) => if |s| == capacity then QueueFull else Accepted
    case Pop => Popped(if s == [] then None else s[0])
  }

  /** Step, with the bounds kept. */
  ghost function After<T>(q: Queue<T>, op: Op<T>): (r: Queue<T>)
    requires q.InBounds()
    ensures r.InBounds() && r.N() == q.N()
  {
    StepsStayInBounds(q, if op.Push? then op.elem else None);
    Step(q, op)
  }

  ghost predicate Reaches<T>(q: Queue<T>, ops: seq<Op<T>>, r: Queue<T>)
    requires q.InBounds()
    decreases |ops|
  {
    if ops == [] then q == r else Reaches(After(q, ops[0]), ops[1..], r)
  }

  ghost function FifoRun<T>(s: seq<Option<T>>, capacity: nat, ops: seq<Op<T>>): seq<Option<T>>
    decreases |ops|
  {
    if ops == [] then s else FifoRun(FifoStep(s, capacity, ops[0]), capacity, ops[1..])
  }

  ghost function Replies<T>(q: Queue<T>, ops: seq<Op<T>>): seq<Answer<T>>
    requires q.InBounds()
    decreases |ops|
  {
    if ops == [] then [] else [Reply(q, ops[0])] + Replies(After(q, ops[0]), ops[1..])
  }

  ghost function FifoReplies<T>(s: seq<Option<T>>, capacity: nat, ops: seq<Op<T>>): seq<Answer<T>>
    decreases |ops|
  {
    if ops == [] then []
    else [FifoReply(s, capacity, ops[0])] + FifoReplies(FifoStep(s, capacity, ops[0]), capacity, ops[1..])
  }

  /** Some Add of the run is accepted. */
  ghost predicate Accepts<T>(q: Queue<T>, ops: seq<Op<T>>)
    requires q.InBounds()
    decreases |ops|
  {
    ops != [] && ((ops[0].Push? && !q.Full()) || Accepts(After(q, ops[0]), ops[1..]))
  }

  /** Every accepted Add that another accepted Add follows is inside the region. */
  ghost predicate StaysInRegion<T>(q: Queue<T>, ops: seq<Op<T>>)
    requires q.InBounds()
    decreases |ops|
  {
    ops != [] ==>
      && (ops[0].Push? && !q.Full() && Accepts(After(q, ops[0]), ops[1..]) ==> q.AddRegion())
      && StaysInRegion(After(q, ops[0]), ops[1..])
  }

  /** Every accepted Add of the run appends, whatever its element. */
  ghost predicate AlwaysAppends<T(!new)>(q: Queue<T>, ops: seq<Op<T>>)
    requires q.InBounds()
    decreases |ops|
  {
    ops != [] ==>
      && (ops[0].Push? && !q.Full() ==> Appends(q))
      && AlwaysAppends(After(q, ops[0]), ops[1..])
  }

  /** In every reachable state, at any capacity, all indices are in bounds. */
  lemma {:induction false} ReachableInBounds<T>(q: Queue<T>, ops: seq<Op<T>>, r: Queue<T>)
    requires q.InBounds() && Reaches(q, ops, r)
    ensures r.InBounds() && r.N() == q.N()
    decreases |ops|
  {
    if ops != [] {
      ReachableInBounds(After(q, ops[0]), ops[1..], r);
    }
  }

  lemma Pow2Advances<T>(q: Queue<T>)
    requires IsPow2(q.N())
    ensures q.HeadAdvances()
  {
    MaskedNext(q.head, q.N());
  }

  /** A run with a misplaced tail appends always exactly when it accepts no Add. */
  lemma {:induction false} MisplacedNeverAppends<T(!new,00)>(q: Queue<T>, ops: seq<Op<T>>)
    requires q.InBounds() && !q.Aligned() && IsPow2(q.N())
    ensures AlwaysAppends(q, ops) <==> !Accepts(q, ops)
    decreases |ops|
  {
    if ops != [] {
      if ops[0].Push? && !q.Full() {
        AppendsIffAligned(q);
      } else {
        Pow2Advances(q);
        RemoveAlignedIff(q);
        MisplacedNeverAppends(After(q, ops[0]), ops[1..]);
      }
    }
  }

  lemma {:induction false} NoAddStaysInRegion<T>(q: Queue<T>, ops: seq<Op<T>>)
    requires q.InBounds() && !Accepts(q, ops)
    ensures StaysInRegion(q, ops)
    decreases |ops|
  {
    if ops != [] {
      NoAddStaysInRegion(After(q, ops[0]), ops[1..]);
    }
  }

  /** At a power-of-two capacity, from a tail where it belongs, every accepted Add of a
      run appends whatever its element exactly when every accepted Add that another
      accepted Add follows is inside the region. */
  lemma {:induction false} AppendsIffInRegion<T(!new,00)>(q: Queue<T>, ops: seq<Op<T>>)
    requires q.InBounds() && q.Aligned() && IsPow2(q.N())
    ensures AlwaysAppends(q, ops) <==> StaysInRegion(q, ops)
    decreases |ops|
  {
    if ops != [] {
      var op, r := ops[0], After(q, ops[0]);
      if op.Push? && !q.Full() {
        AppendsIffAligned(q);
        AddAlignedIff(q, op.elem);
        if !r.Aligned() {
          MisplacedNeverAppends(r, ops[1..]);
          if !Accepts(r, ops[1..]) {
            NoAddStaysInRegion(r, ops[1..]);
          }
        }
      } else {
        Pow2Advances(q);
        RemoveAlignedIff(q);
      }
      if r.Aligned() {
        AppendsIffInRegion(r, ops[1..]);
      }
    }
  }

  lemma StepIsFifo<T(!new)>(q: Queue<T>, op: Op<T>)
    requires q.InBounds() && q.N() > 0 && IsPow2(q.N())
    requires op.Push? && !q.Full() ==> Appends(q)
    ensures After(q, op).Contents() == FifoStep(q.Contents(), q.N(), op)
    ensures Reply(q, op) == FifoReply(q.Contents(), q.N(), op)
  {
    if op.Pop? && q.count > 0 {
      Pow2Advances(q);
      RemoveDropsFront(q);
    }
  }

  /** A run whose Adds all append is a run of the bounded FIFO. */
  lemma {:induction false} AppendingRunIsFifo<T(!new)>(q: Queue<T>, ops: seq<Op<T>>, r: Queue<T>)
    requires q.InBounds() && q.N() > 0 && IsPow2(q.N())
    requires Reaches(q, ops, r) && AlwaysAppends(q, ops)
    ensures r.InBounds() && r.Contents() == FifoRun(q.Contents(), q.N(), ops)
    decreases |ops|
  {
    if ops != [] {
      StepIsFifo(q, ops[0]);
      AppendingRunIsFifo(After(q, ops[0]), ops[1..], r);
    }
  }

  lemma {:induction false} AppendingRunAnswers<T(!new)>(q: Queue<T>, ops: seq<Op<T>>)
    requires q.InBounds() && q.N() > 0 && IsPow2(q.N()) && AlwaysAppends(q, ops)
    ensures Replies(q, ops) == FifoReplies(q.Contents(), q.N(), ops)
    decreases |ops|
  {
    if ops != [] {
      StepIsFifo(q, ops[0]);
      AppendingRunAnswers(After(q, ops[0]), ops[1..]);
    }
  }

  /** A run inside the region is a run of the bounded FIFO: same answers, same
      final contents. */
  lemma RegionRunIsFifo<T(!new,00)>(q: Queue<T>, ops: seq<Op<T>>, r: Queue<T>)
    requires q.InBounds() && q.Aligned() && IsPow2(q.N())
    requires Reaches(q, ops, r) && StaysInRegion(q, ops)
    ensures r.InBounds() && r.Contents() == FifoRun(q.Contents(), q.N(), ops)
    ensures Replies(q, ops) == FifoReplies(q.Contents(), q.N(), ops)
  {
    AppendsIffInRegion(q, ops);
    AppendingRunIsFifo(q, ops, r);
    AppendingRunAnswers(q, ops);
  }

  lemma EmptyIsAligned<T>(size: nat)
    ensures Empty<T>(size).InBounds() && Empty<T>(size).Contents() == []
    ensures size > 0 ==> Empty<T>(size).Aligned()
  {
  }

  // ------------------------------------------------------- outside the region

  /** n-1 elements, one removed, and two more. */
  function OverwritingRun<T>(n: nat, e: T, x: T, y: T): seq<Op<T>>
    requires n >= 2
  {
    Pushes(n - 1, e) + [Pop, Push(Some(x)), Push(Some(y))]
  }

  function Pushes<T>(n: nat, e: T): seq<Op<T>> {
    seq(n, _ => Push(Some(e)))
  }

  ghost function Filled<T>(n: nat, m: nat, e: T): Queue<T>
    requires m < n
  {
    Queue(seq(n, i => if i < m then Some(e) else None), 0, m, m)
  }

  lemma PushesHead<T>(k: nat, e: T, rest: seq<Op<T>>)
    requires k > 0
    ensures var ops := Pushes(k, e) + rest; ops[0] == Push(Some(e)) && ops[1..] == Pushes(k - 1, e) + rest
  {
  }

  lemma FillOne<T>(n: nat, m: nat, e: T)
    requires m + 1 < n
    ensures Filled(n, m, e).InBounds() && Added(Filled(n, m, e), Some(e)) == Filled(n, m + 1, e)
  {
  }

  /** Pushing fewer than n elements into an empty queue fills it from the front. */
  lemma {:induction false} FillReaches<T>(n: nat, m: nat, k: nat, e: T, rest: seq<Op<T>>, r: Queue<T>)
    requires m + k < n
    requires Filled(n, m + k, e).InBounds() && Reaches(Filled(n, m + k, e), rest, r)
    ensures Filled(n, m, e).InBounds() && Reaches(Filled(n, m, e), Pushes(k, e) + rest, r)
    decreases k
  {
    if k == 0 {
      assert Pushes(0, e) + rest == rest;
    } else {
      PushesHead(k, e, rest);
      FillOne(n, m, e);
      FillReaches(n, m + 1, k - 1, e, rest, r);
    }
  }

  lemma {:induction false} FillFifo<T>(n: nat, m: nat, k: nat, e: T, rest: seq<Op<T>>)
    requires m + k < n
    ensures FifoRun(Rep(m, Some(e)), n, Pushes(k, e) + rest) == FifoRun(Rep(m + k, Some(e)), n, rest)
    decreases k
  {
    if k == 0 {
      assert Pushes(0, e) + rest == rest;
    } else {
      PushesHead(k, e, rest);
      FillFifo(n, m + 1, k - 1, e, rest);
      assert Rep(m, Some(e)) + [Some(e)] == Rep(m + 1, Some(e));
    }
  }

  function Rep<A>(n: nat, a: A): seq<A> {
    seq(n, _ => a)
  }

  /** For every power-of-two capacity of at least 2 some run overwrites a queued
      element: the FIFO still holds x, the buffer does not. */
  lemma OverwritesQueued<T(!new)>(n: nat, e: T, x: T, y: T)
    requires n >= 2 && IsPow2(n) && x != e && x != y
    ensures Empty<T>(n).InBounds()
    ensures exists r ::
              && Reaches(Empty<T>(n), OverwritingRun(n, e, x, y), r)
              && r.count == n == |FifoRun([], n, OverwritingRun(n, e, x, y))|
              && Some(x) in FifoRun([], n, OverwritingRun(n, e, x, y)) && Some(x) !in r.buf
  {
    var q := Filled(n, n - 1, e);
    var r := OverwriteTail(n, e, x, y);
    var rest := [Pop, Push(Some(x)), Push(Some(y))];
    FillReaches(n, 0, n - 1, e, rest, r);
    FillFifo(n, 0, n - 1, e, rest);
    assert Empty<T>(n) == Filled(n, 0, e);
    assert Rep(0, Some(e)) == [];
    FifoTail(n, e, x, y);
  }

  /** The last three steps: the tail stays on the last slot, which x and then y
      are written to. */
  lemma OverwriteTail<T>(n: nat, e: T, x: T, y: T) returns (r: Queue<T>)
    requires n >= 2 && IsPow2(n) && x != e && x != y
    ensures Filled(n, n - 1, e).InBounds()
    ensures Reaches(Filled(n, n - 1, e), [Pop, Push(Some(x)), Push(Some(y))], r)
    ensures r.InBounds() && r.count == n == r.N() && Some(x) !in r.buf
  {
    var q := Filled(n, n - 1, e);
    var q1 := Removed(q);
    StepsStayInBounds(q, None);
    Pow2Advances(q);
    var q2 := Added(q1, Some(x));
    StepsStayInBounds(q1, Some(x));
    r := Added(q2, Some(y));
    StepsStayInBounds(q2, Some(y));
    ReachesThree(q, Pop, Push(Some(x)), Push(Some(y)), q1, q2, r);
  }

  lemma ReachesThree<T>(q: Queue<T>, a: Op<T>, b: Op<T>, c: Op<T>, q1: Queue<T>, q2: Queue<T>, r: Queue<T>)
    requires q.InBounds() && q1 == Step(q, a) && q1.InBounds()
    requires q2 == Step(q1, b) && q2.InBounds() && r == Step(q2, c) && r.InBounds()
    ensures Reaches(q, [a, b, c], r)
  {
    assert [a, b, c][1..] == [b, c] && [b, c][1..] == [c];
    assert Reaches(q2, [c], r);
    assert Reaches(q1, [b, c], r);
  }

  lemma FifoTail<T>(n: nat, e: T, x: T, y: T)
    requires n >= 2
    ensures var s := FifoRun(Rep(n - 1, Some(e)), n, [Pop, Push(Some(x)), Push(Some(y))]);
            |s| == n && Some(x) in s
  {
    var s1 := Rep(n - 1, Some(e))[1..];
    var s2 := s1 + [Some(x)];
    var s3 := s2 + [Some(y)];
    assert [Pop, Push(Some(x)), Push(Some(y))][1..] == [Push(Some(x)), Push(Some(y))];
    assert [Push(Some(x)), Push(Some(y))][1..] == [Push(Some(y))];
    assert FifoRun(s2, n, [Push(Some(y))]) == s3;
    assert FifoRun(s1, n, [Push(Some(x)), Push(Some(y))]) == s3;
    assert s3[|s1|] == Some(x);
  }

  // -------------------------------------------------- when the answers are right

  /** The same calls, perhaps with other elements. */
  predicate SameCalls<T>(a: seq<Op<T>>, b: seq<Op<T>>) {
    |a| == |b| && forall i :: 0 <= i < |a| ==> (a[i].Push? <==> b[i].Push?)
  }

  predicate SameIndices<T>(p: Queue<T>, q: Queue<T>) {
    p.N() == q.N() && p.head == q.head && p.tail == q.tail && p.count == q.count
  }

  /** The indices, and so the region, do not depend on the elements. */
  lemma {:induction false} CallsDecide<T>(p: Queue<T>, a: seq<Op<T>>, q: Queue<T>, b: seq<Op<T>>)
    requires p.InBounds() && q.InBounds() && SameIndices(p, q) && SameCalls(a, b)
    ensures Accepts(p, a) <==> Accepts(q, b)
    ensures StaysInRegion(p, a) <==> StaysInRegion(q, b)
    decreases |a|
  {
    if a != [] {
      CallsDecide(After(p, a[0]), a[1..], After(q, b[0]), b[1..]);
    }
  }

  function Pops<T>(n: nat): seq<Op<T>> {
    seq(n, _ => Pop)
  }

  lemma PopsHead<T>(n: nat)
    requires n > 0
    ensures Pops<T>(n)[0] == Pop && Pops<T>(n)[1..] == Pops(n - 1)
  {
  }

  lemma {:induction false} PopsAppend<T(!new)>(q: Queue<T>, n: nat)
    requires q.InBounds()
    ensures AlwaysAppends(q, Pops(n))
    decreases n
  {
    if n > 0 {
      PopsHead<T>(n);
      PopsAppend(After(q, Pop), n - 1);
    }
  }

  lemma {:induction false} DrainAppends<T(!new)>(q: Queue<T>, ops: seq<Op<T>>, n: nat)
    requires q.InBounds() && AlwaysAppends(q, ops)
    ensures AlwaysAppends(q, ops + Pops(n))
    decreases |ops|
  {
    if ops == [] {
      assert ops + Pops(n) == Pops(n);
      PopsAppend(q, n);
    } else {
      DrainAppends(After(q, ops[0]), ops[1..], n);
      ConsOps(ops, Pops(n));
    }
  }

  lemma ConsOps<T>(a: seq<Op<T>>, b: seq<Op<T>>)
    requires a != []
    ensures (a + b)[0] == a[0] && (a + b)[1..] == a[1..] + b
  {
  }

  /** Every added element is nil. */
  predicate Blank<T(==)>(ops: seq<Op<T>>) {
    forall i :: 0 <= i < |ops| && ops[i].Push? ==> ops[i].elem == None
  }

  function Popping<T>(ops: seq<Op<T>>): nat {
    if ops == [] then 0 else (if ops[0].Pop? then 1 else 0) + Popping(ops[1..])
  }

  lemma {:induction false} PoppingPops<T>(ops: seq<Op<T>>, n: nat)
    ensures Popping(ops + Pops(n)) >= n
  {
    if ops != [] {
      ConsOps(ops, Pops(n));
      PoppingPops(ops[1..], n);
    } else if n > 0 {
      PopsHead<T>(n);
      PoppingPops(ops, n - 1);
      assert ops + Pops<T>(n) == Pops(n) && ops + Pops<T>(n - 1) == Pops(n - 1);
    }
  }

  lemma Differ<A>(a: A, s: seq<A>, b: A, t: seq<A>)
    requires a != b || s != t
    ensures [a] + s != [b] + t
  {
    assert ([a] + s)[0] == a && ([b] + t)[0] == b;
    assert ([a] + s)[1..] == s && ([b] + t)[1..] == t;
  }

  /** The FIFO holds x at place i, the buffer does not where place i belongs. */
  ghost predicate Misses<T>(q: Queue<T>, s: seq<Option<T>>, i: nat, x: T) {
    && q.InBounds() && IsPow2(q.N()) && |s| == q.count && i < q.count && s[i] == Some(x)
    && q.N() > 0 && q.buf[(q.head + i) % q.N()] != Some(x)
  }

  /** Once x is not where it belongs no later nil puts it there, and the Remove that
      should return x does not. */
  lemma {:induction false} MissedIsSeen<T>(q: Queue<T>, s: seq<Option<T>>, i: nat, x: T, ops: seq<Op<T>>)
    requires Misses(q, s, i, x) && Blank(ops) && Popping(ops) > i
    ensures Replies(q, ops) != FifoReplies(s, q.N(), ops)
    decreases |ops|
  {
    var r, t := After(q, ops[0]), FifoStep(s, q.N(), ops[0]);
    if ops[0].Pop? && i == 0 {
      Slot(q.head, 0, q.N());
    } else {
      MissesOn(q, s, i, x, ops[0]);
      MissedIsSeen(r, t, if ops[0].Pop? then i - 1 else i, x, ops[1..]);
    }
    Differ(Reply(q, ops[0]), Replies(r, ops[1..]), FifoReply(s, q.N(), ops[0]), FifoReplies(t, q.N(), ops[1..]));
  }

  lemma MissesOn<T>(q: Queue<T>, s: seq<Option<T>>, i: nat, x: T, op: Op<T>)
    requires Misses(q, s, i, x) && (op.Push? ==> op.elem == None) && (op.Pop? ==> i > 0)
    ensures Misses(After(q, op), FifoStep(s, q.N(), op), if op.Pop? then i - 1 else i, x)
  {
    if op.Pop? {
      var n := q.N();
      Pow2Advances(q);
      Wrap(q.head + 1, n);
      Slot(q.head, i, n);
      Slot(After(q, op).head, i - 1, n);
    }
  }

  /** An element added where it does not belong is missed when the queue is drained. */
  lemma MisplacedIsSeen<T>(q: Queue<T>, s: seq<Option<T>>, rest: seq<Op<T>>, x: T)
    requires q.InBounds() && IsPow2(q.N()) && |s| == q.count && q.buf == Rep(q.N(), None)
    requires Blank(rest) && !q.Full() && !q.Aligned()
    ensures WrongDrain(After(q, Push(Some(x))), s + [Some(x)], rest)
  {
    PoppingPops(rest, q.N());
    MissedIsSeen(After(q, Push(Some(x))), s + [Some(x)], q.count, x, rest + Pops(q.N()));
  }

  /** The calls, followed by draining the queue, are not answered as by the FIFO. */
  ghost predicate WrongDrain<T>(q: Queue<T>, s: seq<Option<T>>, ops: seq<Op<T>>)
    requires q.InBounds()
  {
    Replies(q, ops + Pops(q.N())) != FifoReplies(s, q.N(), ops + Pops(q.N()))
  }

  lemma WrongLater<T>(q: Queue<T>, s: seq<Option<T>>, op: Op<T>, rest: seq<Op<T>>)
    requires q.InBounds() && WrongDrain(After(q, op), FifoStep(s, q.N(), op), rest)
    ensures WrongDrain(q, s, [op] + rest)
  {
    var n, ops := q.N(), rest + Pops(q.N());
    var r, t := After(q, op), FifoStep(s, n, op);
    ConsOps([op] + rest, Pops(n));
    Differ(Reply(q, op), Replies(r, ops), FifoReply(s, n, op), FifoReplies(t, n, ops));
  }

  /** If some accepted Add of nil elements would not append every element, the same
      calls with one element x are answered wrongly once the queue is drained. */
  lemma {:induction false} WrongAnswer<T(!new,00)>(q: Queue<T>, s: seq<Option<T>>, ops: seq<Op<T>>, x: T)
    returns (alike: seq<Op<T>>)
    requires q.InBounds() && IsPow2(q.N()) && |s| == q.count && q.buf == Rep(q.N(), None)
    requires Blank(ops) && !AlwaysAppends(q, ops)
    ensures SameCalls(ops, alike) && WrongDrain(q, s, alike)
    decreases |ops|
  {
    var op, rest := ops[0], ops[1..];
    if op.Push? && !q.Full() && !Appends(q) {
      AppendsIffAligned(q);
      MisplacedIsSeen(q, s, rest, x);
      WrongLater(q, s, Push(Some(x)), rest);
      alike := [Push(Some(x))] + rest;
    } else {
      assert After(q, op).buf == Rep(q.N(), None);
      var others := WrongAnswer(After(q, op), FifoStep(s, q.N(), op), rest, x);
      WrongLater(q, s, op, others);
      alike := [op] + others;
    }
  }

  /** The calls, made with any elements on a new queue and followed by draining it, get
      the answers of a bounded FIFO. */
  ghost predicate AnswersAsFifo<T(!new)>(n: nat, ops: seq<Op<T>>)
    requires Empty<T>(n).InBounds()
  {
    forall alike :: SameCalls(ops, alike) ==>
      Replies(Empty(n), alike + Pops(n)) == FifoReplies([], n, alike + Pops(n))
  }

  /** A new queue of power-of-two capacity answers as a bounded FIFO, whatever the
      elements, exactly when every accepted Add that another accepted Add follows is
      inside the region. */
  lemma AnswersAsFifoIff<T(!new,00)>(n: nat, ops: seq<Op<T>>)
    requires IsPow2(n)
    ensures Empty<T>(n).InBounds()
    ensures AnswersAsFifo(n, ops) <==> StaysInRegion(Empty(n), ops)
  {
    var q := Empty<T>(n);
    EmptyIsAligned<T>(n);
    MaskedNext(0, n);
    if StaysInRegion(q, ops) {
      forall alike | SameCalls(ops, alike)
        ensures Replies(q, alike + Pops(n)) == FifoReplies([], n, alike + Pops(n))
      {
        CallsDecide(q, ops, q, alike);
        AppendsIffInRegion(q, alike);
        DrainAppends(q, alike, n);
        AppendingRunAnswers(q, alike + Pops(n));
      }
    } else {
      var blank := seq(|ops|, i requires 0 <= i < |ops| => if ops[i].Push? then Push(None) else Pop);
      CallsDecide(q, ops, q, blank);
      AppendsIffInRegion(q, blank);
      var x: T :| true;
      var alike := WrongAnswer(q, [], blank, x);
      assert SameCalls(ops, alike);
    }
  }

  /** Removes behind Adds that reach the head the mask misses. */
  lemma {:induction false} PopsMiss<T>(q: Queue<T>, s: seq<Option<T>>, h: nat, e: T)
    requires q.InBounds() && q.head < h < q.N() && q.count == h + 1 - q.head && |s| == q.count
    requires BitAnd(h, q.N() - 1) < h && forall k: nat :: 1 <= k < h ==> Unmasked(k, q.N())
    requires s[|s| - 1] == Some(e) && forall j :: 0 <= j < q.head ==> q.buf[j] == None
    ensures Replies(q, Pops(q.count)) != FifoReplies(s, q.N(), Pops(q.count))
    decreases q.count
  {
    var n, r := q.N(), After(q, Pop);
    PopsHead<T>(q.count);
    if q.head + 1 < h {
      assert Unmasked(q.head + 1, n);
      PopsMiss(r, s[1..], h, e);
    } else {
      PopsHead<T>(1);
      assert r.buf[r.head] == None;
      Differ(Reply(r, Pop), Replies(After(r, Pop), []), FifoReply(s[1..], n, Pop), FifoReplies(s[2..], n, []));
    }
    Differ(Reply(q, Pop), Replies(r, Pops(r.count)), FifoReply(s, n, Pop), FifoReplies(s[1..], n, Pops(r.count)));
  }

  /** Inside the region, yet answered wrongly. */
  ghost predicate Strays<T>(q: Queue<T>, s: seq<Option<T>>, ops: seq<Op<T>>)
    requires q.InBounds()
  {
    StaysInRegion(q, ops) && Replies(q, ops) != FifoReplies(s, q.N(), ops)
  }

  lemma StraysLater<T>(q: Queue<T>, s: seq<Option<T>>, op: Op<T>, rest: seq<Op<T>>)
    requires q.InBounds() && (op.Push? && !q.Full() ==> q.AddRegion())
    requires Strays(After(q, op), FifoStep(s, q.N(), op), rest)
    ensures Strays(q, s, [op] + rest)
  {
    var n, ops := q.N(), [op] + rest;
    assert ops[0] == op && ops[1..] == rest;
    var r, t := After(q, op), FifoStep(s, n, op);
    Differ(Reply(q, op), Replies(r, rest), FifoReply(s, n, op), FifoReplies(t, n, rest));
  }

  lemma PushesCons<T>(k: nat, e: T, rest: seq<Op<T>>)
    requires k > 0
    ensures [Push(Some(e))] + (Pushes(k - 1, e) + rest) == Pushes(k, e) + rest
  {
  }

  ghost predicate FilledStrays<T>(n: nat, m: nat, e: T, ops: seq<Op<T>>)
    requires m < n
  {
    Filled(n, m, e).InBounds() && Strays(Filled(n, m, e), Rep(m, Some(e)), ops)
  }

  lemma FillOneStrays<T>(n: nat, m: nat, e: T, rest: seq<Op<T>>)
    requires m + 1 < n && FilledStrays(n, m + 1, e, rest)
    ensures FilledStrays(n, m, e, [Push(Some(e))] + rest)
  {
    FillOne(n, m, e);
    assert Rep(m, Some(e)) + [Some(e)] == Rep(m + 1, Some(e));
    StraysLater(Filled(n, m, e), Rep(m, Some(e)), Push(Some(e)), rest);
  }

  lemma {:induction false} FillThen<T>(n: nat, m: nat, k: nat, e: T, rest: seq<Op<T>>)
    requires m + k < n && FilledStrays(n, m + k, e, rest)
    ensures FilledStrays(n, m, e, Pushes(k, e) + rest)
    decreases k
  {
    if k == 0 {
      assert Pushes(0, e) + rest == rest;
    } else {
      FillThen(n, m + 1, k - 1, e, rest);
      FillOneStrays(n, m, e, Pushes(k - 1, e) + rest);
      PushesCons(k, e, rest);
    }
  }

  lemma {:induction false} NoAdds<T>(q: Queue<T>, n: nat)
    requires q.InBounds()
    ensures !Accepts(q, Pops(n))
    decreases n
  {
    if n > 0 {
      PopsHead<T>(n);
      NoAdds(After(q, Pop), n - 1);
    }
  }

  /** h+1 Adds and h+1 Removes, where h is the head the mask misses: with three slots,
      Add, Add, Remove, Remove. */
  lemma MissingRun<T>(n: nat, e: T) returns (ops: seq<Op<T>>)
    requires n > 0 && !IsPow2(n)
    ensures Empty<T>(n).InBounds() && StaysInRegion(Empty(n), ops)
    ensures Replies(Empty(n), ops) != FifoReplies([], n, ops)
  {
    var h := LostHead(n);
    var q, s := Filled(n, h + 1, e), Rep(h + 1, Some(e));
    ops := Pushes(h + 1, e) + Pops(h + 1);
    PopsMiss(q, s, h, e);
    NoAdds(q, h + 1);
    NoAddStaysInRegion(q, Pops(h + 1));
    FillThen(n, 0, h + 1, e, Pops(h + 1));
    assert Empty<T>(n) == Filled(n, 0, e);
    assert Rep(0, Some(e)) == [];
  }

  /** With three slots, after Add, Add and Remove the second Remove returns nil in place
      of the second element. */
  lemma ThreeSlots<T>(a: T, b: T)
    ensures Empty<T>(3).InBounds()
    ensures Replies(Empty(3), [Push(Some(a)), Push(Some(b)), Pop, Pop]) ==
            [Accepted, Accepted, Popped(Some(a)), Popped(None)]
  {
    var q0 := Empty<T>(3);
    var q1 := After(q0, Push(Some(a)));
    var q2 := After(q1, Push(Some(b)));
    var q3 := After(q2, Pop);
    assert BitAnd(1, 2) == 0;
    assert q3.head == 0 && q3.buf[0] == None;
    FirstReply(q3, [Pop]);
    FirstReply(q2, [Pop, Pop]);
    FirstReply(q1, [Push(Some(b)), Pop, Pop]);
    FirstReply(q0, [Push(Some(a)), Push(Some(b)), Pop, Pop]);
  }

  lemma FirstReply<T>(q: Queue<T>, ops: seq<Op<T>>)
    requires q.InBounds() && ops != []
    ensures Replies(q, ops) == [Reply(q, ops[0])] + Replies(After(q, ops[0]), ops[1..])
  {
  }

  /** A run of a new queue is a run of the bounded FIFO: same answers, same contents. */
  ghost predicate RunsAsFifo<T(!new)>(n: nat, ops: seq<Op<T>>)
    requires Empty<T>(n).InBounds()
  {
    && Replies(Empty(n), ops) == FifoReplies([], n, ops)
    && forall r :: Reaches(Empty(n), ops, r) ==> r.Contents() == FifoRun([], n, ops)
  }

  /** Staying in the region makes every run one of the bounded FIFO exactly at
      power-of-two capacities. */
  lemma FifoCapacities<T(!new,00)>(n: nat)
    requires n > 0
    ensures Empty<T>(n).InBounds()
    ensures (forall ops :: StaysInRegion(Empty<T>(n), ops) ==> RunsAsFifo(n, ops)) <==> IsPow2(n)
  {
    EmptyIsAligned<T>(n);
    if IsPow2(n) {
      forall ops, r | StaysInRegion(Empty<T>(n), ops) && Reaches(Empty(n), ops, r)
        ensures r.Contents() == FifoRun([], n, ops)
      {
        RegionRunIsFifo(Empty(n), ops, r);
      }
      forall ops | StaysInRegion(Empty<T>(n), ops) ensures Replies(Empty(n), ops) == FifoReplies([], n, ops) {
        AppendsIffInRegion(Empty(n), ops);
        AppendingRunAnswers(Empty(n), ops);
      }
    } else {
      var e: T :| true;
      var ops := MissingRun(n, e);
      assert !RunsAsFifo(n, ops);
    }
  }

  // ------------------------------------------------------- the mutable queue

  class RingQueue<T> {
    var buf: array<Option<T>>
    var head: nat
    var tail: nat
    var count: nat

    ghost function View(): Queue<T>
      reads this, buf
    {
      Queue(buf[..], head, tail, count)
    }

    constructor (size: nat)
      ensures View() == Empty(size) && View().InBounds() && fresh(buf)
    {
      buf := new Option<T>[size](_ => None);
      head, tail, count := 0, 0, 0;
    }

    method Length() returns (n: nat)
      ensures n == View().count
    {
      n := count;
    }

    method Add(elem: Option<T>) returns (ok: bool)
      requires View().InBounds()
      modifies this`tail, this`count, buf
      ensures View() == Added(old(View()), elem) && View().InBounds()
      ensures ok <==> !old(View().Full())
    {
      StepsStayInBounds(View(), elem);
      if count == buf.Length {
        return false;
      }
      count := count + 1;
      buf[tail] := elem;
      if tail + 1 < buf.Length {
        tail := tail + 1;
      }
      if buf.Length == count {
        tail := 0;
      }
      return true;
    }

    method Peek() returns (elem: Option<T>)
      requires View().InBounds()
      ensures elem == Front(View())
    {
      if count <= 0 {
        return None;
      }
      return buf[head];
    }

    method Remove() returns (elem: Option<T>)
      requires View().InBounds()
      modifies this`head, this`count, buf
      ensures View() == Removed(old(View())) && View().InBounds()
      ensures elem == Front(old(View()))
    {
      StepsStayInBounds(View(), None);
      if count <= 0 {
        return None;
      }
      elem := buf[head];
      buf[head] := None;
      head := BitAnd(head + 1, buf.Length - 1);
      count := count - 1;
    }
  }
}
