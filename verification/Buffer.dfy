/**
  The bounded shipping buffer between the request handler and Redis.

  The class works on the queue in place, as the source does; its methods are specified by three
  functions (`Admitted`, `ShedCount`, `Returned`). The ledger below replays those functions over an
  arbitrary schedule and keeps the whole history, so that ordering and conservation can be stated.
 */
module Buffer {
  import opened Common

  // --- what one operation does to the queue ---

  /** The queue after appending: the newest `capacity` entries of old queue and new payloads. */
  function Admitted<T>(queue: seq<T>, payloads: seq<T>, capacity: nat): seq<T> {
    (queue + payloads)[ShedCount(queue, payloads, capacity)..]
  }

  function ShedCount<T>(queue: seq<T>, payloads: seq<T>, capacity: nat): (n: nat)
    ensures n <= |queue| + |payloads|
  {
    if |queue| + |payloads| <= capacity then 0 else |queue| + |payloads| - capacity
  }

  /** The queue after a failed chunk goes back to the front of a deque with a maximum length. */
  function Returned<T>(chunk: seq<T>, queue: seq<T>, capacity: nat): seq<T> {
    if |chunk| + |queue| <= capacity then chunk + queue else (chunk + queue)[..capacity]
  }

  class ShippingBuffer<T> {
    var queue: seq<T>
    var inFlight: seq<T>
    var dropped: nat
    var shipped: nat
    var failedFlushes: nat
    var wake: bool
    const capacity: nat
    const flushSize: nat

    ghost predicate Valid()
      reads this
    {
      0 < capacity && 0 < flushSize && |queue| <= capacity && |inFlight| <= capacity
    }

    constructor (capacity: nat, flushSize: nat)
      requires 0 < capacity && 0 < flushSize
      ensures Valid() && queue == [] && inFlight == [] && dropped == 0 && shipped == 0 && failedFlushes == 0
      ensures this.capacity == capacity && this.flushSize == flushSize
    {
      this.capacity, this.flushSize := capacity, flushSize;
      queue, inFlight, dropped, shipped, failedFlushes, wake := [], [], 0, 0, 0, false;
    }

    method Append(payloads: seq<T>) returns (shed: nat)
      requires Valid()
      modifies this
      ensures Valid()
      ensures queue == Admitted(old(queue), payloads, capacity)
      ensures shed == ShedCount(old(queue), payloads, capacity)
      ensures dropped == old(dropped) + shed
      ensures wake == (old(wake) || |queue| >= flushSize)
      ensures inFlight == old(inFlight) && shipped == old(shipped) && failedFlushes == old(failedFlushes)
    {
      shed := 0;
      for i := 0 to |payloads|
        invariant |queue| <= capacity
        invariant queue == Admitted(old(queue), payloads[..i], capacity)
        invariant shed == ShedCount(old(queue), payloads[..i], capacity)
        invariant dropped == old(dropped) && wake == old(wake)
        invariant inFlight == old(inFlight) && shipped == old(shipped) && failedFlushes == old(failedFlushes)
      {
        if |queue| >= capacity {
          queue := queue[1..];
          shed := shed + 1;
        }
        queue := queue + [payloads[i]];
        assert payloads[..i + 1] == payloads[..i] + [payloads[i]];
        assert old(queue) + payloads[..i + 1] == (old(queue) + payloads[..i]) + [payloads[i]];
      }
      assert payloads[..|payloads|] == payloads;
      if shed > 0 {
        dropped := dropped + shed;
      }
      if |queue| >= flushSize {
        wake := true;
      }
    }

    /** The synchronous half of a flush: at most one chunk leaves the queue. */
    method TakeChunk()
      requires Valid() && inFlight == []
      modifies this`queue, this`inFlight
      ensures Valid()
      ensures inFlight == old(queue)[..Min(|old(queue)|, flushSize)]
      ensures inFlight + queue == old(queue)
    {
      var n := Min(|queue|, flushSize);
      for i := 0 to n
        invariant inFlight == old(queue)[..i] && queue == old(queue)[i..]
      {
        inFlight := inFlight + [queue[0]];
        queue := queue[1..];
      }
    }

    method PublishSucceeded()
      requires Valid()
      modifies this
      ensures Valid() && inFlight == [] && queue == old(queue) && dropped == old(dropped)
      ensures shipped == old(shipped) + |old(inFlight)|
      ensures wake == (old(wake) || queue != []) && failedFlushes == old(failedFlushes)
    {
      shipped := shipped + |inFlight|;
      inFlight := [];
      if queue != [] {
        wake := true;
      }
    }

    /** `extendleft(reversed(batch))`: each push at the front of a full deque discards its newest entry. */
    method PublishFailed()
      requires Valid()
      modifies this
      ensures Valid() && inFlight == []
      ensures queue == Returned(old(inFlight), old(queue), capacity)
      ensures failedFlushes == old(failedFlushes) + 1
      ensures dropped == old(dropped) && shipped == old(shipped) && wake == old(wake)
    {
      failedFlushes := failedFlushes + 1;
      var i := |inFlight|;
      while i > 0
        invariant 0 <= i <= |inFlight|
        invariant inFlight == old(inFlight) && |queue| <= capacity
        invariant queue == Returned(inFlight[i..], old(queue), capacity)
        invariant failedFlushes == old(failedFlushes) + 1
        invariant dropped == old(dropped) && shipped == old(shipped) && wake == old(wake)
      {
        i := i - 1;
        ghost var before := inFlight[i + 1..] + old(queue);
        assert inFlight[i..] + old(queue) == [inFlight[i]] + before;
        if |queue| == capacity {
          queue := [inFlight[i]] + queue[..|queue| - 1];
        } else {
          queue := [inFlight[i]] + queue;
        }
      }
      assert inFlight[0..] == inFlight;
      inFlight := [];
    }
  }

  // --- whole schedules ---

  /** A payload together with its position in the order of appends. */
  datatype Entry<T> = Entry(no: nat, payload: T)

  datatype Ledger<T> = Ledger(
    queue: seq<Entry<T>>,
    chunk: seq<Entry<T>>,
    shipped: seq<Entry<T>>,
    shed: seq<Entry<T>>,     // counted in `dropped`
    lost: seq<Entry<T>>,     // discarded by the deque's maximum length, counted nowhere
    appended: seq<T>)

  datatype Action<T> = Append(payloads: seq<T>) | Take | Ship | Fail

  function Numbered<T>(payloads: seq<T>, start: nat): (es: seq<Entry<T>>)
    ensures |es| == |payloads|
    ensures forall i | 0 <= i < |es| :: es[i] == Entry(start + i, payloads[i])
  {
    seq(|payloads|, i requires 0 <= i < |payloads| => Entry(start + i, payloads[i]))
  }

  function Empty<T>(): Ledger<T> { Ledger([], [], [], [], [], []) }

  function Step<T>(l: Ledger<T>, a: Action<T>, capacity: nat, flushSize: nat): Ledger<T> {
    match a
    case Append(payloads) =>
      var added := Numbered(payloads, |l.appended|);
      var all := l.queue + added;
      l.(queue := Admitted(l.queue, added, capacity),
         shed := l.shed + all[..ShedCount(l.queue, added, capacity)],
         appended := l.appended + payloads)
    case Take =>
      if l.chunk != [] then l
      else l.(chunk := l.queue[..Min(|l.queue|, flushSize)], queue := l.queue[Min(|l.queue|, flushSize)..])
    case Ship => l.(shipped := l.shipped + l.chunk, chunk := [])
    case Fail =>
      var back := Returned(l.chunk, l.queue, capacity);
      l.(queue := back, chunk := [], lost := l.lost + (l.chunk + l.queue)[|back|..])
  }

  function Run<T>(acts: seq<Action<T>>, capacity: nat, flushSize: nat): Ledger<T> {
    if acts == [] then Empty()
    else Step(Run(acts[..|acts| - 1], capacity, flushSize), acts[|acts| - 1], capacity, flushSize)
  }

  ghost predicate InOrder<T>(es: seq<Entry<T>>) {
    forall i, j | 0 <= i < j < |es| :: es[i].no < es[j].no
  }

  /** What is shipped, in flight or queued, oldest first. */
  ghost function Live<T>(l: Ledger<T>): seq<Entry<T>> { l.shipped + (l.chunk + l.queue) }

  /** Everything that ever entered, by where it is now. */
  ghost function Everywhere<T>(l: Ledger<T>): multiset<Entry<T>> {
    multiset(Live(l)) + multiset(l.shed + l.lost)
  }

  ghost predicate LedgerInv<T>(l: Ledger<T>, capacity: nat) {
    && |l.queue| <= capacity
    && InOrder(Live(l))
    && Everywhere(l) == multiset(Numbered(l.appended, 0))
    && (forall i | 0 <= i < |Live(l)| :: Live(l)[i].no < |l.appended|)
  }

  lemma CutKeepsOrder<T>(a: seq<Entry<T>>, b: seq<Entry<T>>, lo: nat, hi: nat, bound: nat)
    requires InOrder(a + b) && lo <= hi <= |b|
    requires forall i | 0 <= i < |a + b| :: (a + b)[i].no < bound
    ensures InOrder(a + b[lo..hi])
    ensures forall i | 0 <= i < |a + b[lo..hi]| :: (a + b[lo..hi])[i].no < bound
  {
    var c := a + b[lo..hi];
    forall i | 0 <= i < |c| ensures c[i] == (a + b)[if i < |a| then i else i + lo] {}
  }

  lemma CutSplits<T>(a: seq<T>, b: seq<T>, n: nat)
    requires n <= |b|
    ensures multiset(a + b) == multiset(a + b[n..]) + multiset(b[..n])
    ensures multiset(a + b) == multiset(a + b[..n]) + multiset(b[n..])
  {
    assert b == b[..n] + b[n..];
  }

  lemma ExtendKeepsOrder<T>(es: seq<Entry<T>>, payloads: seq<T>, start: nat)
    requires InOrder(es)
    requires forall i | 0 <= i < |es| :: es[i].no < start
    ensures InOrder(es + Numbered(payloads, start))
    ensures forall i | 0 <= i < |es + Numbered(payloads, start)| ::
              (es + Numbered(payloads, start))[i].no < start + |payloads|
  {
  }

  lemma NumberedAppend<T>(a: seq<T>, b: seq<T>)
    ensures Numbered(a + b, 0) == Numbered(a, 0) + Numbered(b, |a|)
  {
  }

  lemma AppendKeepsLedger<T>(l: Ledger<T>, payloads: seq<T>, capacity: nat, flushSize: nat)
    requires LedgerInv(l, capacity)
    ensures LedgerInv(Step(l, Append(payloads), capacity, flushSize), capacity)
  {
    var l' := Step(l, Append(payloads), capacity, flushSize);
    var added := Numbered(payloads, |l.appended|);
    var tail := l.queue + added;
    var n := ShedCount(l.queue, added, capacity);
    var before := l.shipped + l.chunk;
    assert InOrder(Live(l')) && (forall i | 0 <= i < |Live(l')| :: Live(l')[i].no < |l'.appended|) by {
      ExtendKeepsOrder(Live(l), payloads, |l.appended|);
      assert before + tail == Live(l) + added;
      CutKeepsOrder(before, tail, n, |tail|, |l'.appended|);
      assert tail[n..|tail|] == tail[n..];
      assert Live(l') == before + tail[n..];
    }
    assert Everywhere(l') == multiset(Numbered(l'.appended, 0)) by {
      NumberedAppend(l.appended, payloads);
      AppendEverywhere(l, tail, added, n);
    }
  }

  lemma AppendEverywhere<T>(l: Ledger<T>, tail: seq<Entry<T>>, added: seq<Entry<T>>, n: nat)
    requires tail == l.queue + added && n <= |tail|
    ensures var l' := l.(queue := tail[n..], shed := l.shed + tail[..n]);
            Everywhere(l') == Everywhere(l) + multiset(added)
  {
    var before := l.shipped + l.chunk;
    var l' := l.(queue := tail[n..], shed := l.shed + tail[..n]);
    CutSplits(before, tail, n);
    assert before + tail == Live(l) + added;
    assert Live(l') == before + tail[n..];
    MoveAcross(multiset(Live(l')), multiset(tail[..n]), multiset(Live(l)), multiset(added),
               multiset(l.shed), multiset(l.lost));
    assert multiset(l'.shed + l'.lost) == multiset(l.shed) + multiset(tail[..n]) + multiset(l.lost);
  }

  lemma MoveAcross<T>(a: multiset<T>, b: multiset<T>, c: multiset<T>, d: multiset<T>,
                      e: multiset<T>, f: multiset<T>)
    requires a + b == c + d
    ensures a + (e + b + f) == (c + (e + f)) + d
  {
    assert a + (e + b + f) == (a + b) + (e + f);
  }

  lemma FailKeepsLedger<T>(l: Ledger<T>, capacity: nat, flushSize: nat)
    requires LedgerInv(l, capacity)
    ensures LedgerInv(Step(l, Fail, capacity, flushSize), capacity)
  {
    var l' := Step(l, Fail, capacity, flushSize);
    var tail := l.chunk + l.queue;
    var n := |Returned(l.chunk, l.queue, capacity)|;
    CutKeepsOrder(l.shipped, tail, 0, n, |l.appended|);
    assert tail[0..n] == tail[..n] == Returned(l.chunk, l.queue, capacity);
    assert Live(l') == l.shipped + tail[..n];
    CutSplits(l.shipped, tail, n);
    assert multiset(l'.shed + l'.lost) == multiset(l.shed + l.lost) + multiset(tail[n..]);
  }

  lemma StepKeepsLedger<T>(l: Ledger<T>, a: Action<T>, capacity: nat, flushSize: nat)
    requires LedgerInv(l, capacity)
    ensures LedgerInv(Step(l, a, capacity, flushSize), capacity)
  {
    var l' := Step(l, a, capacity, flushSize);
    match a
    case Append(payloads) => AppendKeepsLedger(l, payloads, capacity, flushSize);
    case Take =>
      assert l'.chunk + l'.queue == l.chunk + l.queue;
      assert Live(l') == Live(l);
    case Ship => assert Live(l') == Live(l);
    case Fail => FailKeepsLedger(l, capacity, flushSize);
  }

  /**
    For every schedule: the depth never exceeds the capacity; what was shipped, is in flight and is
    queued comes in append order; and every appended entry is in exactly one place.
   */
  lemma {:induction false} EveryScheduleConserves<T>(acts: seq<Action<T>>, capacity: nat, flushSize: nat)
    ensures LedgerInv(Run(acts, capacity, flushSize), capacity)
    ensures var l := Run(acts, capacity, flushSize);
            |l.appended| == |l.shipped| + |l.chunk| + |l.queue| + |l.shed| + |l.lost|
  {
    if acts != [] {
      EveryScheduleConserves(acts[..|acts| - 1], capacity, flushSize);
      StepKeepsLedger(Run(acts[..|acts| - 1], capacity, flushSize), acts[|acts| - 1], capacity, flushSize);
    } else {
      assert Numbered<T>([], 0) == [];
    }
    var l := Run(acts, capacity, flushSize);
    assert |Everywhere(l)| == |multiset(Numbered(l.appended, 0))|;
  }

  /** Every failed chunk of the schedule found room to go back. */
  ghost predicate FailuresFoundRoom<T>(acts: seq<Action<T>>, capacity: nat, flushSize: nat) {
    forall i | 0 <= i < |acts| && acts[i].Fail? ::
      var l := Run(acts[..i], capacity, flushSize); |l.chunk| + |l.queue| <= capacity
  }

  /** Nothing goes missing uncounted exactly when every failed chunk found room to go back. */
  lemma {:induction false} UncountedLossIff<T>(acts: seq<Action<T>>, capacity: nat, flushSize: nat)
    ensures Run(acts, capacity, flushSize).lost == [] <==> FailuresFoundRoom(acts, capacity, flushSize)
  {
    if acts != [] {
      var init, last := acts[..|acts| - 1], acts[|acts| - 1];
      UncountedLossIff(init, capacity, flushSize);
      assert forall i | 0 <= i < |init| :: acts[..i] == init[..i] && acts[i] == init[i];
      var l := Run(init, capacity, flushSize);
      if last.Fail? {
        var back := Returned(l.chunk, l.queue, capacity);
        assert (l.chunk + l.queue)[|back|..] == [] <==> |l.chunk| + |l.queue| <= capacity;
        assert Run(acts, capacity, flushSize).lost == l.lost + (l.chunk + l.queue)[|back|..];
      } else {
        assert Run(acts, capacity, flushSize).lost == l.lost;
      }
    }
  }

  /** With room for every failed chunk, the two counters account for everything that left the process. */
  lemma CountersAccountForEverything<T>(acts: seq<Action<T>>, capacity: nat, flushSize: nat)
    requires FailuresFoundRoom(acts, capacity, flushSize)
    ensures var l := Run(acts, capacity, flushSize);
            |l.appended| == |l.shipped| + |l.shed| + |l.chunk| + |l.queue|
  {
    EveryScheduleConserves(acts, capacity, flushSize);
    UncountedLossIff(acts, capacity, flushSize);
  }
}
