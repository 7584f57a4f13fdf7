/**
  The SDK's event queue. The class is the queue with nothing interleaved; the state machine below it
  lets tracking, flushing, storage and crashes interleave at every point the code waits.
 */
module SdkQueue {
  import opened Common

  datatype Event = Event(id: string, payload: string)

  datatype Outcome = Accepted | Rejected | Unknown(retryAfterMs: Option<nat>)

  const BASE_BACKOFF_MS: nat := 1000
  const MAX_BACKOFF_MS: nat := 300000

  ghost function Ids(events: seq<Event>): set<string> { set e | e in events :: e.id }

  // --- what the queue computes ---

  /** Push, then drop the oldest until it fits. */
  function Pushed(events: seq<Event>, e: Event, max: nat): seq<Event> {
    var all := events + [e];
    if |all| > max then all[|all| - max..] else all
  }

  function Batch(events: seq<Event>, size: nat): seq<Event> { if |events| > size then events[..size] else events }

  /** Keep the events whose id is not in the batch. */
  function Without(events: seq<Event>, batch: seq<Event>): (r: seq<Event>)
    ensures |r| <= |events|
  {
    if events == [] then []
    else
      var rest := Without(events[1..], batch);
      if exists b | b in batch :: b.id == events[0].id then rest else [events[0]] + rest
  }

  lemma {:induction false} WithoutIs(events: seq<Event>, batch: seq<Event>)
    ensures forall e :: e in Without(events, batch) <==> e in events && e.id !in Ids(batch)
    ensures Ids(Without(events, batch)) == Ids(events) - Ids(batch)
  {
    if events != [] {
      WithoutIs(events[1..], batch);
      assert events == [events[0]] + events[1..];
    }
    assert forall e :: e in Without(events, batch) <==> e in events && e.id !in Ids(batch);
    forall id ensures id in Ids(Without(events, batch)) <==> id in Ids(events) - Ids(batch) {
      if id in Ids(events) {
        var e :| e in events && e.id == id;
        assert e in Without(events, batch) <==> id !in Ids(batch);
      }
    }
  }

  /** A non-empty batch from the front always makes progress. */
  lemma WithoutShrinks(events: seq<Event>, size: nat)
    requires events != [] && size >= 1
    ensures |Without(events, Batch(events, size))| < |events|
  {
    assert events[0] in Batch(events, size);
  }

  lemma PushedIs(events: seq<Event>, e: Event, max: nat)
    ensures |Pushed(events, e, max)| <= max
    ensures Ids(events) + {e.id} == Ids(Pushed(events, e, max)) + Ids(Overflow(events, e, max))
    ensures Overflow(events, e, max) + Pushed(events, e, max) == events + [e]
  {
    var all := events + [e];
    assert Overflow(events, e, max) + Pushed(events, e, max) == all;
    assert Ids(all) == Ids(events) + {e.id} by {
      assert forall x :: x in all <==> x in events || x == e;
    }
    var over, rest := Overflow(events, e, max), Pushed(events, e, max);
    assert forall x :: x in all <==> x in over || x in rest;
  }

  /** What pushing dropped: the oldest. */
  function Overflow(events: seq<Event>, e: Event, max: nat): seq<Event> {
    var all := events + [e];
    if |all| > max then all[..|all| - max] else []
  }

  /** Draining with answers `reply(n, batch)` to the nth send: what is left when it stops. */
  function Drained(events: seq<Event>, size: nat, n: nat, reply: (nat, seq<Event>) -> Outcome): seq<Event>
    requires size >= 1
    decreases |events|
  {
    if events == [] || reply(n, Batch(events, size)).Unknown? then events
    else
      WithoutShrinks(events, size);
      Drained(Without(events, Batch(events, size)), size, n + 1, reply)
  }

  /** The batches a drain sends, each with its answer. */
  function Log(events: seq<Event>, size: nat, n: nat, reply: (nat, seq<Event>) -> Outcome): seq<(seq<Event>, Outcome)>
    requires size >= 1
    decreases |events|
  {
    if events == [] then []
    else
      var batch := Batch(events, size);
      if reply(n, batch).Unknown? then [(batch, reply(n, batch))]
      else
        WithoutShrinks(events, size);
        [(batch, reply(n, batch))] + Log(Without(events, batch), size, n + 1, reply)
  }

  ghost predicate Settled(log: seq<(seq<Event>, Outcome)>, id: string) {
    exists x | x in log :: !x.1.Unknown? && id in Ids(x.0)
  }

  lemma SettledCons(x: (seq<Event>, Outcome), log: seq<(seq<Event>, Outcome)>, id: string)
    ensures Settled([x] + log, id) <==> (!x.1.Unknown? && id in Ids(x.0)) || Settled(log, id)
  {
    if !x.1.Unknown? && id in Ids(x.0) { assert x in [x] + log; }
    if Settled(log, id) {
      var y :| y in log && !y.1.Unknown? && id in Ids(y.0);
      assert y in [x] + log;
    }
  }

  /** An event is still queued after a drain exactly when it was queued and no batch the server settled held it. */
  lemma {:induction false} DrainKeepsIff(events: seq<Event>, size: nat, n: nat, reply: (nat, seq<Event>) -> Outcome,
                                         id: string)
    requires size >= 1
    ensures id in Ids(Drained(events, size, n, reply))
            <==> id in Ids(events) && !Settled(Log(events, size, n, reply), id)
    decreases |events|
  {
    var batch := Batch(events, size);
    var x := (batch, reply(n, batch));
    if events == [] {
    } else if x.1.Unknown? {
      SettledCons(x, [], id);
      assert [x] + [] == [x];
    } else {
      WithoutIs(events, batch);
      WithoutShrinks(events, size);
      DrainKeepsIff(Without(events, batch), size, n + 1, reply, id);
      SettledCons(x, Log(Without(events, batch), size, n + 1, reply), id);
    }
  }

  /** A drain leaves events behind exactly when its last answer left a batch's fate unknown. */
  lemma {:induction false} DrainStopsOnUnknown(events: seq<Event>, size: nat, n: nat,
                                               reply: (nat, seq<Event>) -> Outcome)
    requires size >= 1
    ensures var log := Log(events, size, n, reply);
            Drained(events, size, n, reply) != [] <==> log != [] && log[|log| - 1].1.Unknown?
    decreases |events|
  {
    var batch := Batch(events, size);
    if events != [] && !reply(n, batch).Unknown? {
      WithoutShrinks(events, size);
      DrainStopsOnUnknown(Without(events, batch), size, n + 1, reply);
    }
  }

  function Pow2(n: nat): nat { if n == 0 then 1 else 2 * Pow2(n - 1) }

  lemma {:induction false} Pow2Positive(n: nat)
    ensures Pow2(n) >= 1
  {
    if n > 0 { Pow2Positive(n - 1); }
  }

  // --- in what order a drain sends ---

  predicate DistinctIds(events: seq<Event>) { forall i, j | 0 <= i < j < |events| :: events[i].id != events[j].id }

  lemma RestIsApart(events: seq<Event>, n: nat)
    requires DistinctIds(events) && n <= |events|
    ensures forall e | e in events[n..] :: e.id !in Ids(events[..n])
  {
    forall i, j | 0 <= i < n <= j < |events| ensures events[i].id != events[j].id { }
  }

  /** With distinct ids, taking the front batch out leaves the rest as it was. */
  lemma FrontTakenOut(events: seq<Event>, n: nat)
    requires DistinctIds(events) && n <= |events|
    ensures Without(events, events[..n]) == events[n..]
  {
    var front, rest := events[..n], events[n..];
    assert front + rest == events;
    RestIsApart(events, n);
    WithoutConcat(front, rest, front);
    AllTakenOut(front, front);
    NoneTakenOut(rest, front);
  }

  lemma {:induction false} WithoutConcat(a: seq<Event>, b: seq<Event>, batch: seq<Event>)
    ensures Without(a + b, batch) == Without(a, batch) + Without(b, batch)
  {
    if a == [] {
      assert a + b == b;
    } else {
      assert (a + b)[1..] == a[1..] + b;
      WithoutConcat(a[1..], b, batch);
    }
  }

  lemma {:induction false} AllTakenOut(events: seq<Event>, batch: seq<Event>)
    requires forall e | e in events :: e in batch
    ensures Without(events, batch) == []
  {
    if events != [] {
      assert events[0] in batch;
      AllTakenOut(events[1..], batch);
    }
  }

  lemma {:induction false} NoneTakenOut(events: seq<Event>, batch: seq<Event>)
    requires forall e | e in events :: e.id !in Ids(batch)
    ensures Without(events, batch) == events
  {
    if events != [] {
      assert events[0] in events && forall b | b in batch :: b.id in Ids(batch);
      NoneTakenOut(events[1..], batch);
      assert events == [events[0]] + events[1..];
    }
  }

  /** Everything the log's batches carried, one after another. */
  function Carried(log: seq<(seq<Event>, Outcome)>): seq<Event> {
    if log == [] then [] else log[0].0 + Carried(log[1..])
  }

  /** The log and the rest are those of a drain that sent `events` from the front. */
  ghost predicate SentFrom(events: seq<Event>, size: nat, log: seq<(seq<Event>, Outcome)>, left: seq<Event>) {
    && Carried(log) + left[Min(size, |left|)..] == events
    && (forall i | 0 <= i < |log| - 1 :: |log[i].0| == size)
    && (left != [] ==> log != [] && log[|log| - 1].0 == left[..Min(size, |left|)])
  }

  lemma SentOneMore(events: seq<Event>, size: nat, x: (seq<Event>, Outcome), log: seq<(seq<Event>, Outcome)>,
                    left: seq<Event>)
    requires size >= 1 && x.0 == events[..Min(size, |events|)]
    requires SentFrom(events[|x.0|..], size, log, left) && (log != [] ==> |x.0| == size) && (left != [] ==> log != [])
    ensures SentFrom(events, size, [x] + log, left)
  {
    assert ([x] + log)[1..] == log;
    assert events == x.0 + events[|x.0|..];
  }

  lemma EmptyDrain(size: nat, n: nat, reply: (nat, seq<Event>) -> Outcome)
    requires size >= 1
    ensures Log([], size, n, reply) == []
  {
  }

  /**
    A drain over distinct ids sends its queue from the front, in order, each event once: every batch but the
    last has `size` events, and what is left over is what was not settled.
   */
  lemma {:induction false} DrainSendsInOrder(events: seq<Event>, size: nat, n: nat, reply: (nat, seq<Event>) -> Outcome)
    requires DistinctIds(events) && size >= 1
    ensures SentFrom(events, size, Log(events, size, n, reply), Drained(events, size, n, reply))
    decreases |events|
  {
    if events != [] {
      var k := Min(size, |events|);
      var x := (events[..k], reply(n, events[..k]));
      assert Batch(events, size) == events[..k];
      FrontTakenOut(events, k);
      if x.1.Unknown? {
        assert Carried([x]) == x.0 + Carried([]) == x.0;
      } else {
        WithoutShrinks(events, size);
        DrainSendsInOrder(events[k..], size, n + 1, reply);
        if k < size { EmptyDrain(size, n + 1, reply); }
        SentOneMore(events, size, x, Log(events[k..], size, n + 1, reply), Drained(events[k..], size, n + 1, reply));
      }
    }
  }

  lemma FractionBelow(f: real, c: int)
    requires 0.0 <= f < 1.0 && c > 0
    ensures 0 <= (f * c as real).Floor < c
  {
    var r := c as real;
    assert (1.0 - f) * r > 0.0;
    assert f * r < r;
  }

  class EventQueue {
    const batchSize: nat
    const maxQueueSize: nat
    var events: seq<Event>
    var storage: seq<Event>
    var flushing: bool
    var failures: nat
    var nextAttemptAt: int
    var sent: nat
    var dropped: nat
    var rejected: nat

    constructor (batchSize: nat, maxQueueSize: nat, stored: seq<Event>)
      ensures this.batchSize == batchSize && this.maxQueueSize == maxQueueSize
      ensures events == stored && storage == stored && !flushing && nextAttemptAt == 0
    {
      this.batchSize, this.maxQueueSize := batchSize, maxQueueSize;
      events, storage, flushing, failures, nextAttemptAt := stored, stored, false, 0, 0;
      sent, dropped, rejected := 0, 0, 0;
    }

    method Enqueue(e: Event)
      modifies this`events, this`storage, this`dropped
      ensures events == Pushed(old(events), e, maxQueueSize) && storage == events && |events| <= maxQueueSize
      ensures dropped == old(dropped) + |Overflow(old(events), e, maxQueueSize)|
    {
      PushedIs(events, e, maxQueueSize);
      var all := events + [e];
      events := all;
      if |events| > maxQueueSize {
        var overflow := |events| - maxQueueSize;
        events := events[overflow..];
        dropped := dropped + overflow;
      }
      storage := events;
    }

    /** Filter the batch out, by event id. */
    method Remove(batch: seq<Event>)
      modifies this`events
      ensures events == Without(old(events), batch)
    {
      var ids := set b | b in batch :: b.id;
      var kept := [];
      var i := |events|;
      while i > 0
        invariant 0 <= i <= |events| && events == old(events)
        invariant kept == Without(events[i..], batch)
      {
        i := i - 1;
        assert events[i..][1..] == events[i + 1..];
        if events[i].id !in ids { kept := [events[i]] + kept; }
      }
      assert events[0..] == events;
      events := kept;
    }

    /** Whether to keep draining. `jitter` is the random draw in [0, 1). */
    method ApplyOutcome(outcome: Outcome, batch: seq<Event>, now: int, jitter: real) returns (more: bool)
      requires 0.0 <= jitter < 1.0
      modifies this`events, this`sent, this`rejected, this`failures, this`nextAttemptAt
      ensures more <==> !outcome.Unknown?
      ensures events == if more then Without(old(events), batch) else old(events)
      ensures sent == old(sent) + (if outcome.Accepted? then |batch| else 0)
      ensures rejected == old(rejected) + (if outcome.Rejected? then |batch| else 0)
      ensures outcome.Accepted? ==> failures == 0 && nextAttemptAt == 0
      ensures outcome.Rejected? ==> failures == old(failures) && nextAttemptAt == old(nextAttemptAt)
      ensures outcome.Unknown? ==> failures == old(failures) + 1
      ensures outcome.Unknown? && outcome.retryAfterMs.Some? ==> nextAttemptAt == now + outcome.retryAfterMs.value
      ensures outcome.Unknown? && outcome.retryAfterMs.None? ==>
                nextAttemptAt == now + (jitter * Min(1000 * Pow2(old(failures)), 300_000) as real).Floor
                && now <= nextAttemptAt < now + Min(1000 * Pow2(old(failures)), 300_000)
    {
      match outcome
      case Accepted =>
        Remove(batch);
        sent, failures, nextAttemptAt := sent + |batch|, 0, 0;
        more := true;
      case Rejected =>
        Remove(batch);
        rejected := rejected + |batch|;
        more := true;
      case Unknown(after) =>
        failures := failures + 1;
        var ceiling := Min(BASE_BACKOFF_MS * Pow2(failures - 1), MAX_BACKOFF_MS);
        Pow2Positive(failures - 1);
        FractionBelow(jitter, ceiling);
        nextAttemptAt := now + if after.Some? then after.value else (jitter * ceiling as real).Floor;
        more := false;
    }

    /** Drain until empty or an unknown outcome; it always comes to an end. */
    method Flush(now: int, jitter: real, reply: (nat, seq<Event>) -> Outcome) returns (accepted: bool)
      requires batchSize >= 1 && 0.0 <= jitter < 1.0
      modifies this
      ensures !flushing || old(flushing)
      ensures accepted <==> !old(flushing) && now >= old(nextAttemptAt) && old(events) != []
                            && !reply(0, Batch(old(events), batchSize)).Unknown?
      ensures old(flushing) || now < old(nextAttemptAt) ==>
                !accepted && events == old(events) && storage == old(storage) && nextAttemptAt == old(nextAttemptAt)
      ensures !old(flushing) && now >= old(nextAttemptAt) ==> events == Drained(old(events), batchSize, 0, reply)
      ensures !old(flushing) && now >= old(nextAttemptAt) && old(events) != [] ==> storage == events
    {
      if flushing || |events| == 0 || now < nextAttemptAt { return false; }
      flushing := true;
      accepted := false;
      var n := 0;
      while |events| > 0
        invariant Drained(events, batchSize, n, reply) == Drained(old(events), batchSize, 0, reply)
        invariant storage == old(storage)
        invariant if n == 0 then !accepted && events == old(events)
                  else accepted && !reply(0, Batch(old(events), batchSize)).Unknown?
        decreases |events|
      {
        var batch := Batch(events, batchSize);
        WithoutShrinks(events, batchSize);
        var more := ApplyOutcome(reply(n, batch), batch, now, jitter);
        if !more { break; }
        accepted := true;
        n := n + 1;
      }
      storage := events;
      flushing := false;
    }
  }

  // --- interleaved runs ---

  /** A queue as written or held, with every id tracked by then as far as storage or memory tell. */
  datatype Image = Image(events: seq<Event>, known: set<string>)

  /** `load` marks the queue loaded before it has read anything. */
  datatype Load = NotLoaded | Reading | HaveRead(raw: Image) | Loaded

  datatype State = State(
    memory: Image, load: Load, stored: Image, writes: seq<Image>, sending: Option<seq<Event>>,
    answered: set<string>, dropped: set<string>, completed: set<string>)

  datatype Config = Config(batchSize: nat, maxQueueSize: nat)

  datatype Action =
    | LoadBegin | LoadRead | LoadEnd
    | Push(event: Event)     // tracked: in memory, and its write issued
    | WriteDone              // storage applies writes in the order they were issued
    | FlushBegin
    | Reply(outcome: Outcome)
    | Crash

  const Start: State := State(Image([], {}), NotLoaded, Image([], {}), [], None, {}, {}, {})

  function Step(c: Config, s: State, a: Action): State {
    match a
    case LoadBegin => if s.load.NotLoaded? then s.(load := Reading) else s
    case LoadRead => if s.load.Reading? then s.(load := HaveRead(s.stored)) else s
    case LoadEnd => if s.load.HaveRead? then s.(memory := Taken(s.memory, s.load.raw), load := Loaded) else s
    case Push(e) =>
      if s.load.NotLoaded? then s
      else
        var now := Image(Pushed(s.memory.events, e, c.maxQueueSize), s.memory.known + {e.id});
        s.(memory := now, writes := s.writes + [now],
           dropped := s.dropped + Lost(Overflow(s.memory.events, e, c.maxQueueSize)))
    case WriteDone =>
      if s.writes == [] then s
      else s.(stored := s.writes[0], writes := s.writes[1..], completed := s.completed + s.writes[0].known)
    case FlushBegin =>
      if !s.load.NotLoaded? && s.sending.None? && s.memory.events != []
      then s.(sending := Some(Batch(s.memory.events, c.batchSize))) else s
    case Reply(outcome) => if s.sending.None? then s else Answered(c, s, outcome)
    case Crash => s.(memory := Image([], s.stored.known), load := NotLoaded, writes := [], sending := None)
  }

  /** An empty queue is stored as no key at all, and a read that finds none leaves memory as it is. */
  function Taken(memory: Image, raw: Image): Image {
    Image(if raw.events == [] then memory.events else raw.events, memory.known + raw.known)
  }

  function Lost(events: seq<Event>): set<string> { set e | e in events :: e.id }

  /** The flush loop goes round while batches are settled, then writes what is left. */
  function Answered(c: Config, s: State, outcome: Outcome): State
    requires s.sending.Some?
  {
    var left := if outcome.Unknown? then s.memory.events else Without(s.memory.events, s.sending.value);
    var s' := s.(memory := Image(left, s.memory.known),
                 answered := if outcome.Unknown? then s.answered else s.answered + Lost(s.sending.value));
    if outcome.Unknown? || left == [] then s'.(sending := None, writes := s.writes + [s'.memory])
    else s'.(sending := Some(Batch(left, c.batchSize)))
  }

  function Run(c: Config, acts: seq<Action>): State {
    if acts == [] then Start else Step(c, Run(c, acts[..|acts| - 1]), acts[|acts| - 1])
  }

  // --- nothing vanishes ---

  /** Every id known by an image is in it, or was settled by the server, or was dropped as the oldest. */
  ghost predicate Accounts(i: Image, gone: set<string>) { i.known <= Ids(i.events) + gone }

  /** What is in memory is what will be: the load is over, or its read found nothing to put there. */
  predicate InPlace(s: State) { s.load.Loaded? || (s.load.HaveRead? && s.load.raw.events == []) }

  ghost predicate ImageOk(i: Image, gone: set<string>) { Accounts(i, gone) && Ids(i.events) <= i.known }

  ghost predicate WriteOk(s: State, i: nat) {
    i < |s.writes| ==>
      && ImageOk(s.writes[i], s.answered + s.dropped)
      && s.stored.known <= s.writes[i].known <= s.memory.known
  }

  /** Until memory is settled, nothing has been tracked or written. */
  ghost predicate Inv(s: State) {
    && ImageOk(s.stored, s.answered + s.dropped)
    && Ids(s.stored.events) <= s.completed <= s.stored.known <= s.memory.known
    && (InPlace(s) ==> ImageOk(s.memory, s.answered + s.dropped))
    && (!InPlace(s) ==> s.writes == [] && s.sending.None? && s.memory == Image([], s.stored.known))
    && (s.load.HaveRead? ==> s.load.raw.known <= s.memory.known)
    && (s.load.HaveRead? && s.load.raw.events != [] ==> s.load.raw == s.stored)
    && (forall i {:trigger WriteOk(s, i)} :: WriteOk(s, i))
    && (forall i, j | 0 <= i < j < |s.writes| :: s.writes[i].known <= s.writes[j].known)
  }

  /** The step tracks nothing while a load may still replace what is in memory. */
  predicate Careful(s: State, a: Action) { a.Push? ==> s.load.NotLoaded? || InPlace(s) }

  lemma AppendWrite(s: State, s': State)
    requires Inv(s) && InPlace(s)
    requires s' == s.(memory := s'.memory, writes := s.writes + [s'.memory], sending := s'.sending,
                      answered := s'.answered, dropped := s'.dropped)
    requires s.memory.known <= s'.memory.known && ImageOk(s'.memory, s'.answered + s'.dropped)
    requires s.answered <= s'.answered && s.dropped <= s'.dropped
    ensures Inv(s')
  {
    forall i: nat ensures WriteOk(s', i) { assert WriteOk(s, i); }
    forall i, j | 0 <= i < j < |s'.writes| ensures s'.writes[i].known <= s'.writes[j].known {
      assert WriteOk(s, i);
    }
  }

  lemma PushKeeps(c: Config, s: State, e: Event)
    requires Inv(s) && Careful(s, Push(e))
    ensures Inv(Step(c, s, Push(e)))
  {
    if InPlace(s) {
      PushedIs(s.memory.events, e, c.maxQueueSize);
      AppendWrite(s, Step(c, s, Push(e)));
    }
  }

  lemma ReplyKeeps(c: Config, s: State, outcome: Outcome)
    requires Inv(s) && s.sending.Some?
    ensures Inv(Answered(c, s, outcome))
  {
    var s' := Answered(c, s, outcome);
    WithoutIs(s.memory.events, s.sending.value);
    assert Lost(s.sending.value) == Ids(s.sending.value);
    if s'.sending.None? {
      AppendWrite(s, s');
    } else {
      forall i: nat ensures WriteOk(s', i) { assert WriteOk(s, i); }
    }
  }

  lemma WriteDoneKeeps(c: Config, s: State)
    requires Inv(s)
    ensures Inv(Step(c, s, WriteDone))
  {
    var s' := Step(c, s, WriteDone);
    if s.writes != [] {
      assert WriteOk(s, 0);
      forall i: nat ensures WriteOk(s', i) { assert WriteOk(s, i + 1); }
    }
  }

  lemma QuietKeeps(c: Config, s: State, a: Action)
    requires Inv(s) && (a.LoadBegin? || a.LoadRead? || a.LoadEnd? || a.FlushBegin? || a.Crash?)
    ensures Inv(Step(c, s, a))
  {
    var s' := Step(c, s, a);
    forall i: nat ensures WriteOk(s', i) { assert WriteOk(s, i); }
  }

  ghost predicate CarefulRun(c: Config, acts: seq<Action>) {
    forall i | 0 <= i < |acts| :: Careful(Run(c, acts[..i]), acts[i])
  }

  lemma {:induction false} RunKeeps(c: Config, acts: seq<Action>)
    requires CarefulRun(c, acts)
    ensures Inv(Run(c, acts))
  {
    if acts != [] {
      var n := |acts| - 1;
      var init, a := acts[..n], acts[n];
      assert forall i | 0 <= i < n :: init[..i] == acts[..i] && init[i] == acts[i];
      assert Careful(Run(c, init), a);
      RunKeeps(c, init);
      var s := Run(c, init);
      match a
      case Push(e) => PushKeeps(c, s, e);
      case WriteDone => WriteDoneKeeps(c, s);
      case Reply(o) => if s.sending.Some? { ReplyKeeps(c, s, o); }
      case _ => QuietKeeps(c, s, a);
    }
  }

  /**
    Through any interleaving with crashes, an event whose tracking completed is in storage unless the
    server settled it or it was dropped as the oldest.
   */
  lemma NothingVanishes(c: Config, acts: seq<Action>, id: string)
    requires CarefulRun(c, acts) && id in Run(c, acts).completed
    ensures var s := Run(c, acts); id in Ids(s.stored.events) || id in s.answered || id in s.dropped
  {
    RunKeeps(c, acts);
  }

  /**
    An event leaves the queue in memory only as settled by the server, as the oldest on overflow, or with the
    process.
   */
  lemma LeavesOnly(c: Config, s: State, a: Action, id: string)
    requires id in Ids(s.memory.events) && id !in Ids(Step(c, s, a).memory.events)
    ensures || (a.Reply? && !a.outcome.Unknown? && s.sending.Some? && id in Ids(s.sending.value))
            || (a.Push? && id in Ids(Overflow(s.memory.events, a.event, c.maxQueueSize)))
            || a.Crash?
            || (a.LoadEnd? && s.load.HaveRead? && s.load.raw.events != [] && id !in Ids(s.load.raw.events))
  {
    if a.Push? { PushedIs(s.memory.events, a.event, c.maxQueueSize); }
    if a.Reply? && s.sending.Some? { WithoutIs(s.memory.events, s.sending.value); }
  }

  /**
    A flush goes on to the next batch exactly when the server settled the last one and something is left;
    when it stops, what is left is to be written.
   */
  lemma FlushStopsIff(c: Config, s: State, outcome: Outcome)
    requires s.sending.Some?
    ensures var s' := Step(c, s, Reply(outcome));
            var left := if outcome.Unknown? then s.memory.events else Without(s.memory.events, s.sending.value);
            && s'.memory.events == left
            && (s'.sending.None? <==> outcome.Unknown? || left == [])
            && (s'.sending.Some? ==> s'.sending.value == left[..Min(c.batchSize, |left|)] && s'.writes == s.writes)
            && (s'.sending.None? ==> s'.writes == s.writes + [s'.memory])
  {
  }

  /** One flush at a time: it starts with the front batch exactly when nothing is being sent and something is held. */
  lemma FlushStartsIff(c: Config, s: State)
    ensures var s' := Step(c, s, FlushBegin);
            if !s.load.NotLoaded? && s.sending.None? && s.memory.events != []
            then s' == s.(sending := Some(s.memory.events[..Min(c.batchSize, |s.memory.events|)])) else s' == s
  {
    assert Batch(s.memory.events, c.batchSize) == s.memory.events[..Min(c.batchSize, |s.memory.events|)];
  }

  ghost predicate Short(c: Config, s: State) {
    && |s.memory.events| <= c.maxQueueSize && |s.stored.events| <= c.maxQueueSize
    && (s.load.HaveRead? ==> |s.load.raw.events| <= c.maxQueueSize)
    && (s.sending.Some? ==> |s.sending.value| <= c.batchSize)
    && forall i | 0 <= i < |s.writes| :: |s.writes[i].events| <= c.maxQueueSize
  }

  lemma StepKeepsShort(c: Config, s: State, a: Action)
    requires Short(c, s)
    ensures Short(c, Step(c, s, a))
  {
    var s' := Step(c, s, a);
    if a.Push? { PushedIs(s.memory.events, a.event, c.maxQueueSize); }
    assert |s'.memory.events| <= c.maxQueueSize;
  }

  /** The queue never holds or stores more than its bound, nor sends more than a batch, in any run. */
  lemma {:induction false} NeverTooLong(c: Config, acts: seq<Action>)
    ensures Short(c, Run(c, acts))
  {
    if acts != [] {
      NeverTooLong(c, acts[..|acts| - 1]);
      StepKeepsShort(c, Run(c, acts[..|acts| - 1]), acts[|acts| - 1]);
    }
  }

  // --- tracking while the queue loads ---

  lemma RunStep(c: Config, acts: seq<Action>, a: Action)
    ensures Run(c, acts + [a]) == Step(c, Run(c, acts), a)
  {
    assert (acts + [a])[..|acts + [a]| - 1] == acts;
  }

  ghost predicate Vanished(s: State, id: string) {
    id in s.completed && id !in Ids(s.stored.events) && id !in Ids(s.memory.events) && id !in s.answered
      && id !in s.dropped
  }

  lemma FirstPush(e: Event, max: nat)
    requires max >= 1
    ensures Pushed([], e, max) == [e] && Overflow([], e, max) == [] && Ids([e]) == {e.id}
  {
    assert [] + [e] == [e];
  }

  lemma PushedOnto(events: seq<Event>, e: Event, max: nat, id: string)
    requires id != e.id && id !in Ids(events)
    ensures id !in Ids(Pushed(events, e, max)) && id !in Lost(Overflow(events, e, max))
  {
    PushedIs(events, e, max);
    assert Lost(Overflow(events, e, max)) == Ids(Overflow(events, e, max));
  }

  /**
    Tracked before the end of a load that read something else: the load takes it out of memory, the next write
    out of storage.
   */
  lemma ReplacedByLoad(c: Config, acts: seq<Action>, e: Event, f: Event) returns (all: seq<Action>)
    requires var s := Run(c, acts);
             && s.load.HaveRead? && s.load.raw.events != [] && e.id !in Ids(s.load.raw.events) && e.id != f.id
             && |s.writes| == 1 && e.id in s.writes[0].known && e.id !in s.answered + s.dropped
    ensures acts <= all && Vanished(Run(c, all), e.id)
  {
    var s := Run(c, acts);
    var raw := s.load.raw.events;
    var a1 := acts + [LoadEnd];
    RunStep(c, acts, LoadEnd);
    var a2 := a1 + [Push(f)];
    RunStep(c, a1, Push(f));
    PushedOnto(raw, f, c.maxQueueSize, e.id);
    var s2 := Run(c, a2);
    assert s2.writes == [s.writes[0], s2.memory] && s2.memory.events == Pushed(raw, f, c.maxQueueSize);
    var a3 := a2 + [WriteDone];
    RunStep(c, a2, WriteDone);
    assert Run(c, a3).writes == [s2.memory];
    all := a3 + [WriteDone];
    RunStep(c, a3, WriteDone);
  }

  /** The same when storage was empty but the read comes between two tracked events. */
  lemma ReadBetween(c: Config, acts: seq<Action>, e: Event, f: Event, g: Event) returns (all: seq<Action>)
    requires c.maxQueueSize >= 1 && e.id != f.id && f.id != g.id
    requires var s := Run(c, acts);
             && s.load.Reading? && |s.writes| == 1 && s.writes[0] == s.memory && s.memory.events == [e]
             && f.id !in s.answered + s.dropped
    ensures acts <= all && Vanished(Run(c, all), f.id)
  {
    var s := Run(c, acts);
    var a1 := acts + [WriteDone];
    RunStep(c, acts, WriteDone);
    assert Run(c, a1).writes == [];
    var a2 := a1 + [LoadRead];
    RunStep(c, a1, LoadRead);
    var a3 := a2 + [Push(f)];
    RunStep(c, a2, Push(f));
    OnlyDrops([e], f, c.maxQueueSize);
    assert [] + [Run(c, a3).memory] == [Run(c, a3).memory];
    assert Run(c, a3).writes == [Run(c, a3).memory];
    all := ReplacedByLoad(c, a3, f, g);
  }

  /** What is dropped was queued before; the new event itself is never dropped while there is room for one. */
  lemma OnlyDrops(events: seq<Event>, e: Event, max: nat)
    requires max >= 1
    ensures Lost(Overflow(events, e, max)) <= Ids(events)
  {
    var over := Overflow(events, e, max);
    forall x | x in over ensures x in events { }
  }

  /**
    `Careful` is exact: wherever a run tracks an event it forbids, the run can go on to lose an event
    whose tracking completed, counted nowhere.
   */
  lemma CarelessPushLoses(c: Config, acts: seq<Action>, e: Event, f: Event, g: Event)
    returns (all: seq<Action>, lost: string)
    requires c.maxQueueSize >= 1 && CarefulRun(c, acts) && !Careful(Run(c, acts), Push(e))
    requires e.id != f.id && f.id != g.id
    requires var s := Run(c, acts); {e.id, f.id} !! Ids(s.stored.events) + s.answered + s.dropped
    ensures acts + [Push(e)] <= all && Vanished(Run(c, all), lost)
  {
    RunKeeps(c, acts);
    var s := Run(c, acts);
    FirstPush(e, c.maxQueueSize);
    var a1 := acts + [Push(e)];
    RunStep(c, acts, Push(e));
    var s1 := Run(c, a1);
    assert [] + [s1.memory] == [s1.memory];
    assert s1.writes == [s1.memory] && s1.memory.events == [e] && s1.dropped == s.dropped;
    if s.load.HaveRead? {
      lost := e.id;
      all := ReplacedByLoad(c, a1, e, f);
    } else if s.stored.events != [] {
      lost := e.id;
      RunStep(c, a1, LoadRead);
      all := ReplacedByLoad(c, a1 + [LoadRead], e, f);
    } else {
      lost := f.id;
      all := ReadBetween(c, a1, e, f, g);
    }
  }

  /**
    The other half of the race: the tracked event's write replaces the stored queue, and a crash then loses
    all of it.
   */
  lemma PushOverwritesStorage(c: Config, acts: seq<Action>, e: Event, x: string) returns (all: seq<Action>)
    requires c.maxQueueSize >= 1 && CarefulRun(c, acts) && !Careful(Run(c, acts), Push(e))
    requires var s := Run(c, acts); x in Ids(s.stored.events) && x != e.id && x !in s.answered + s.dropped
    ensures all == acts + [Push(e)] + [WriteDone] + [Crash]
    ensures Run(c, all).stored.events == [e] && Vanished(Run(c, all), x)
  {
    RunKeeps(c, acts);
    var s := Run(c, acts);
    FirstPush(e, c.maxQueueSize);
    var a1 := acts + [Push(e)];
    RunStep(c, acts, Push(e));
    var s1 := Run(c, a1);
    assert [] + [s1.memory] == [s1.memory];
    assert s1.writes == [s1.memory] && s1.memory.events == [e] && s1.dropped == s.dropped
           && s1.completed == s.completed;
    all := WriteThenCrash(c, a1, x);
  }

  lemma WriteThenCrash(c: Config, acts: seq<Action>, x: string) returns (all: seq<Action>)
    requires var s := Run(c, acts);
             |s.writes| == 1 && x in s.completed && x !in Ids(s.writes[0].events) && x !in s.answered && x !in s.dropped
    ensures all == acts + [WriteDone] + [Crash]
    ensures Run(c, all).stored == Run(c, acts).writes[0] && Vanished(Run(c, all), x)
  {
    var a1 := acts + [WriteDone];
    RunStep(c, acts, WriteDone);
    all := a1 + [Crash];
    RunStep(c, a1, Crash);
  }
}
