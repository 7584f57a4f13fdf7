/**
  The imperative pieces of the pipeline, each proved against the functions the protocol steps use:
  the idempotency window, the batch writer and the stream consumer.
 */
module Consumer {
  import opened Common
  import opened Pipeline
  import opened PipelineRuns

  // --- the idempotency window ---

  function Keys(app: nat, ids: seq<EventId>): set<Key> { set id | id in ids :: Key(app, id) }

  /** The ids without a mark. */
  function NewIds(marks: set<Key>, app: nat, ids: seq<EventId>): set<EventId> {
    set id | id in ids && Key(app, id) !in marks
  }

  class IdempotencyWindow {
    var marks: set<Key>

    constructor ()
      ensures marks == {}
    {
      marks := {};
    }

    /** One pipelined SET NX per id. An id repeated in the batch counts as new: its first SET NX won. */
    method FilterNew(app: nat, ids: seq<EventId>) returns (news: set<EventId>)
      modifies this
      ensures news == NewIds(old(marks), app, ids)
      ensures marks == old(marks) + Keys(app, ids)
    {
      news := {};
      for i := 0 to |ids|
        invariant news == NewIds(old(marks), app, ids[..i])
        invariant marks == old(marks) + Keys(app, ids[..i])
      {
        assert ids[..i + 1] == ids[..i] + [ids[i]];
        if Key(app, ids[i]) !in marks {
          marks := marks + {Key(app, ids[i])};
          news := news + {ids[i]};
        }
      }
      assert ids[..|ids|] == ids;
    }

    method Forget(app: nat, ids: seq<EventId>)
      modifies this
      ensures marks == old(marks) - Keys(app, ids)
    {
      marks := marks - Keys(app, ids);
    }
  }

  /** The next request sees a forgotten id of its app as new, and everything else as before. */
  lemma ForgottenIsNewAgain(marks: set<Key>, app: nat, ids: seq<EventId>, other: nat, again: seq<EventId>)
    ensures NewIds(marks - Keys(app, ids), other, again)
            == NewIds(marks, other, again) + (set id | id in again && other == app && id in ids)
  {
    forall id | id in again ensures Key(other, id) in Keys(app, ids) <==> other == app && id in ids { }
  }

  /** The request's marking steps, taken without interruption. */
  ghost function MarkedUpTo(s: State, r: nat, n: nat): State {
    if n == 0 then s else MarkNext(MarkedUpTo(s, r, n - 1), r)
  }

  ghost predicate MarkedPrefix(s: State, s': State, r: nat, q: Request, n: nat)
    requires q.Marking? && n <= |q.events|
  {
    && s'.marks == s.marks + (set e | e in q.events[..n] :: e.key)
    && r in s'.requests
    && s'.requests[r] == q.(next := n, news := set e | e in q.events[..n] && e.key !in s.marks :: e.key.id)
  }

  lemma OneMoreNew(marks: set<Key>, upto: seq<Event>, e: Event, app: nat)
    requires forall e' | e' in upto + [e] :: e'.key.app == app
    ensures (set e' | e' in upto + [e] :: e'.key) == (set e' | e' in upto :: e'.key) + {e.key}
    ensures var news := set e' | e' in upto && e'.key !in marks :: e'.key.id;
            var more := set e' | e' in upto + [e] && e'.key !in marks :: e'.key.id;
            && (e.key !in marks ==> more == news + {e.key.id})
            && (e.key in marks + (set e' | e' in upto :: e'.key) ==> more == news)
  {
    if e.key !in marks && e.key in (set e' | e' in upto :: e'.key) {
      var e' :| e' in upto && e'.key == e.key;
      assert e'.key.id == e.key.id;
    }
  }

  lemma OneMoreMark(s: State, m: State, r: nat, q: Request, n: nat)
    requires q.Marking? && n < |q.events| && MarkedPrefix(s, m, r, q, n)
    requires forall e | e in q.events :: e.key.app == q.app
    ensures MarkedPrefix(s, MarkNext(m, r), r, q, n + 1)
  {
    var e := q.events[n];
    assert q.events[..n + 1] == q.events[..n] + [e];
    OneMoreNew(s.marks, q.events[..n], e, q.app);
  }

  /** Uninterrupted, the protocol's marking steps do to the marks what `FilterNew` does. */
  lemma {:induction false} MarkingStepsAreFilterNew(c: Config, s: State, r: nat, n: nat)
    requires r in s.requests && s.requests[r].Marking?
    requires s.requests[r].next == 0 && s.requests[r].news == {} && n <= |s.requests[r].events|
    requires forall e | e in s.requests[r].events :: e.key.app == s.requests[r].app
    ensures MarkedPrefix(s, MarkedUpTo(s, r, n), r, s.requests[r], n)
    ensures n > 0 ==> MarkedUpTo(s, r, n) == Step(c, MarkedUpTo(s, r, n - 1), SetIfAbsent(r))
  {
    if n > 0 {
      MarkingStepsAreFilterNew(c, s, r, n - 1);
      OneMoreMark(s, MarkedUpTo(s, r, n - 1), r, s.requests[r], n - 1);
    }
  }

  // --- the batch writer ---

  lemma {:induction false} InsertAllSnoc(table: Table, events: seq<Event>, e: Event)
    ensures InsertAll(table, events + [e]) == Insert(InsertAll(table, events), e)
    decreases |events|
  {
    if events == [] {
      assert events + [e] == [e];
    } else {
      assert (events + [e])[1..] == events[1..] + [e];
      InsertAllSnoc(Insert(table, events[0]), events[1..], e);
    }
  }

  lemma InsertSize(table: Table, e: Event)
    ensures |Insert(table, e)| == |table| + (if RowKeyOf(e) in table then 0 else 1)
  {
    if RowKeyOf(e) !in table {
      assert Insert(table, e).Keys == table.Keys + {RowKeyOf(e)};
      assert |Insert(table, e)| == |Insert(table, e).Keys| && |table| == |table.Keys|;
    }
  }

  class EventConsumer {
    var staging: seq<Event>
    var table: Table
    var pending: set<nat>
    var acked: set<nat>
    var dead: seq<DeadLetter>
    var attempts: map<nat, nat>
    var received: nat
    var written: nat
    var duplicates: nat
    var deadLettered: nat
    var failures: nat

    constructor (table: Table, pending: set<nat>)
      ensures this.table == table && this.pending == pending && acked == {} && dead == [] && attempts == map[]
      ensures received == written == duplicates == deadLettered == failures == 0
    {
      this.table, this.pending := table, pending;
      staging, acked, dead, attempts := [], {}, [], map[];
      received, written, duplicates, deadLettered, failures := 0, 0, 0, 0, 0;
    }

    /** Truncate staging, copy the batch in, insert from staging and let conflicts drop. */
    method Write(events: seq<Event>) returns (count: nat, inserted: nat)
      modifies this`staging, this`table
      ensures table == InsertAll(old(table), events)
      ensures count == |events| && inserted == |table| - |old(table)| && inserted <= count
    {
      count, inserted := |events|, 0;
      if events == [] {
        return;
      }
      staging := events;
      var rows := table;
      for i := 0 to |events|
        invariant table == old(table) && rows == InsertAll(table, events[..i])
        invariant inserted == |rows| - |table| && inserted <= i
      {
        assert events[..i + 1] == events[..i] + [events[i]];
        InsertAllSnoc(table, events[..i], events[i]);
        InsertSize(rows, events[i]);
        if RowKeyOf(events[i]) !in rows {
          inserted := inserted + 1;
        }
        rows := Insert(rows, events[i]);
      }
      assert events[..|events|] == events;
      table := rows;
    }

    method AckIds(ids: set<nat>)
      modifies this`pending, this`acked
      ensures pending == old(pending) - ids && acked == old(acked) + old(pending) * ids
    {
      acked := acked + pending * ids;
      pending := pending - ids;
    }

    /** The batch is written, and only then acknowledged. */
    method Persist(ids: seq<nat>, events: seq<Event>)
      modifies this
      ensures table == InsertAll(old(table), events)
      ensures pending == old(pending) - SetOf(ids) && acked == old(acked) + old(pending) * SetOf(ids)
      ensures attempts == Cleared(old(attempts), ids)
      ensures dead == old(dead) && failures == old(failures) && deadLettered == old(deadLettered)
      ensures received == old(received) + |events| && written == old(written) + |table| - |old(table)|
      ensures duplicates - old(duplicates) == (received - old(received)) - (written - old(written))
    {
      var count, inserted := Write(events);
      AckIds(SetOf(ids));
      attempts := Cleared(attempts, ids);
      received := received + count;
      written := written + inserted;
      duplicates := duplicates + (count - inserted);
    }

    /**
      One batch. Every event of an acknowledged batch is in the table; a failed write changes no row,
      charges every message, and acknowledges exactly what it has just dead-lettered.
     */
    method Process(ids: seq<nat>, events: seq<Event>, writeFails: bool)
      requires |ids| == |events|
      modifies this
      ensures !writeFails ==>
                && (forall e | e in events :: RowKeyOf(e) in table)
                && table == InsertAll(old(table), events) && dead == old(dead)
                && acked == old(acked) + old(pending) * SetOf(ids)
      ensures writeFails ==>
                && table == old(table) && attempts == ChargedAll(old(attempts), ids)
                && dead == old(dead) + Exhausted(old(attempts), ids, events)
                && acked == old(acked) + old(pending) * MessagesOf(Exhausted(old(attempts), ids, events))
      ensures pending == old(pending) - (acked - old(acked)) || !(old(acked) !! old(pending))
    {
      if writeFails {
        failures := failures + 1;
        HandleFailure(ids, events);
      } else {
        Persist(ids, events);
        InsertAllGrows(old(table), events);
      }
    }

    method HandleFailure(ids: seq<nat>, events: seq<Event>)
      requires |ids| == |events|
      modifies this`attempts, this`dead, this`pending, this`acked, this`deadLettered
      ensures attempts == ChargedAll(old(attempts), ids)
      ensures dead == old(dead) + Exhausted(old(attempts), ids, events)
      ensures deadLettered == old(deadLettered) + |Exhausted(old(attempts), ids, events)|
      ensures pending == old(pending) - MessagesOf(Exhausted(old(attempts), ids, events))
      ensures acked == old(acked) + old(pending) * MessagesOf(Exhausted(old(attempts), ids, events))
    {
      var exhausted := [];
      for i := 0 to |ids|
        invariant attempts == ChargedAll(old(attempts), ids[..i])
        invariant exhausted == Exhausted(old(attempts), ids[..i], events[..i])
        invariant dead == old(dead) + exhausted
        invariant pending == old(pending) && acked == old(acked) && deadLettered == old(deadLettered)
      {
        ChargeOneMore(old(attempts), ids, events, i);
        var n := Attempts(attempts, ids[i]) + 1;
        if n >= MAX_ATTEMPTS {
          dead := dead + [DeadLetter(ids[i], events[i], n)];
          exhausted := exhausted + [DeadLetter(ids[i], events[i], n)];
          attempts := attempts - {ids[i]};
        } else {
          attempts := attempts[ids[i] := n];
        }
      }
      assert ids[..|ids|] == ids && events[..|events|] == events;
      if exhausted != [] {
        AckIds(MessagesOf(exhausted));
        deadLettered := deadLettered + |exhausted|;
      }
    }
  }

  /** The attempt counts once a batch has been written. */
  function Cleared(attempts: map<nat, nat>, ids: seq<nat>): map<nat, nat> {
    map i | i in attempts && i !in ids :: attempts[i]
  }

  /** The attempt counts after every message of a failed batch was charged in turn. */
  function ChargedAll(attempts: map<nat, nat>, ids: seq<nat>): map<nat, nat> {
    if ids == [] then attempts
    else Recounted(ChargedAll(attempts, ids[..|ids| - 1]), ids[|ids| - 1])
  }

  /** What the failed batch sends to the dead-letter stream. */
  function Exhausted(attempts: map<nat, nat>, ids: seq<nat>, events: seq<Event>): seq<DeadLetter>
    requires |ids| == |events|
  {
    if ids == [] then []
    else
      var n := |ids| - 1;
      var count := Attempts(ChargedAll(attempts, ids[..n]), ids[n]) + 1;
      Exhausted(attempts, ids[..n], events[..n])
      + (if count >= MAX_ATTEMPTS then [DeadLetter(ids[n], events[n], count)] else [])
  }

  lemma ChargeOneMore(attempts: map<nat, nat>, ids: seq<nat>, events: seq<Event>, i: nat)
    requires |ids| == |events| && i < |ids|
    ensures ChargedAll(attempts, ids[..i + 1]) == Recounted(ChargedAll(attempts, ids[..i]), ids[i])
    ensures var count := Attempts(ChargedAll(attempts, ids[..i]), ids[i]) + 1;
            Exhausted(attempts, ids[..i + 1], events[..i + 1])
            == Exhausted(attempts, ids[..i], events[..i])
               + (if count >= MAX_ATTEMPTS then [DeadLetter(ids[i], events[i], count)] else [])
  {
    assert ids[..i + 1][..i] == ids[..i] && events[..i + 1][..i] == events[..i];
  }

  function MessagesOf(ds: seq<DeadLetter>): set<nat> { set d | d in ds :: d.message }

  /** A batch of distinct messages is dead-lettered message by message: exactly those on their fifth failure. */
  lemma {:induction false} DeadLettersTheFifth(attempts: map<nat, nat>, ids: seq<nat>, events: seq<Event>, i: nat)
    requires |ids| == |events| && i < |ids|
    requires forall j, k | 0 <= j < k < |ids| :: ids[j] != ids[k]
    ensures ids[i] in MessagesOf(Exhausted(attempts, ids, events)) <==> Attempts(attempts, ids[i]) + 1 >= 5
    ensures ids[i] !in MessagesOf(Exhausted(attempts, ids, events)) ==>
              Attempts(ChargedAll(attempts, ids), ids[i]) == Attempts(attempts, ids[i]) + 1
  {
    var n := |ids| - 1;
    Untouched(attempts, ids[..n], events[..n], ids[n]);
    if i < n {
      DeadLettersTheFifth(attempts, ids[..n], events[..n], i);
    }
    var more := Exhausted(attempts, ids, events);
    var less := Exhausted(attempts, ids[..n], events[..n]);
    assert MessagesOf(more) == MessagesOf(less) + (if |more| == |less| then {} else {ids[n]});
  }

  lemma {:induction false} Untouched(attempts: map<nat, nat>, ids: seq<nat>, events: seq<Event>, id: nat)
    requires |ids| == |events| && id !in ids
    ensures Attempts(ChargedAll(attempts, ids), id) == Attempts(attempts, id)
    ensures id !in MessagesOf(Exhausted(attempts, ids, events))
  {
    if ids != [] {
      var n := |ids| - 1;
      Untouched(attempts, ids[..n], events[..n], id);
      assert ids[n] in ids;
    }
  }

  // --- the worker's steps in the protocol, taken without interruption ---

  /** Written and then acknowledged, a batch leaves what `Persist` leaves. */
  lemma CommitThenAckIsPersist(c: Config, s: State, w: nat)
    requires CanWrite(s, w)
    ensures var batch, s' := WorkerAt(s, w).phase.batch, Step(c, Step(c, s, Commit(w)), Ack(w));
            && s'.table == InsertAll(s.table, Payloads(s.stream, batch)) && s'.dead == s.dead
            && s'.pending == s.pending - SetOf(batch) && s'.acked == s.acked + s.pending * SetOf(batch)
            && WorkerAt(s', w) == Worker(Idle, Cleared(WorkerAt(s, w).attempts, batch))
  {
  }

  lemma ClaimOne(c: Config, s: State, w: nat, i: nat)
    requires i in s.pending && i < |s.stream| && s.stream[i].Message? && WorkerAt(s, w).phase.Idle?
    ensures var s' := Step(c, s, ClaimStalled(w, [i]));
            && WorkerAt(s', w).phase == Holding([i]) && CanWrite(s', w)
            && s'.stream == s.stream && s'.pending == s.pending && s'.acked == s.acked && s'.table == s.table
  {
    assert Decodable(s.stream, [i]) == [i] by { assert [i][1..] == []; }
  }

  lemma FinishOne(c: Config, s: State, w: nat, i: nat)
    requires CanWrite(s, w) && WorkerAt(s, w).phase == Holding([i]) && i in s.pending
    requires i < |s.stream| && s.stream[i].Message?
    ensures var s' := Step(c, Step(c, s, Commit(w)), Ack(w));
            RowKeyOf(s.stream[i].event) in s'.table && i in s'.acked && s'.pending == s.pending - {i}
  {
    CommitThenAckIsPersist(c, s, w);
    var e := s.stream[i].event;
    assert Payloads(s.stream, [i]) == [e] && SetOf([i]) == {i};
    InsertAllGrows(s.table, [e]);
    assert e in [e];
  }

  /** A worker that stops leaves its messages pending and forgets its counts. */
  lemma StoppedWorkerForgets(c: Config, s: State, w: nat)
    ensures var s' := Step(c, s, StopWorker(w));
            && WorkerAt(s', w) == Worker(Idle, map[]) && (forall v | v != w :: WorkerAt(s', v) == WorkerAt(s, v))
            && s'.pending == s.pending && s'.acked == s.acked && s'.stream == s.stream && s'.table == s.table
  {
  }

  /** A message left by a worker that stopped can be taken over, and is then stored and acknowledged. */
  lemma TakenOver(c: Config, s: State, w: nat, w': nat, i: nat)
    requires i in s.pending && i < |s.stream| && s.stream[i].Message? && w' != w && WorkerAt(s, w').phase.Idle?
    ensures var s2 := Step(c, Step(c, s, StopWorker(w)), ClaimStalled(w', [i]));
            var s' := Step(c, Step(c, s2, Commit(w')), Ack(w'));
            RowKeyOf(s.stream[i].event) in s'.table && i in s'.acked && s'.pending == s.pending - {i}
  {
    StoppedWorkerForgets(c, s, w);
    var s1 := Step(c, s, StopWorker(w));
    ClaimOne(c, s1, w', i);
    FinishOne(c, Step(c, s1, ClaimStalled(w', [i])), w', i);
  }

  /** A failed batch is not acknowledged before every message of it has been charged. */
  lemma ChargedBeforeAcked(c: Config, s: State, w: nat)
    requires var p := WorkerAt(s, w).phase; p.Failing? && p.next < |p.batch|
    ensures Step(c, s, Ack(w)) == s
  {
  }

  lemma OthersKeepWorkers(c: Config, s: State, a: Action)
    requires !(a.Read? || a.ClaimStalled? || a.Commit? || a.CommitUnconfirmed? || a.WriteFails?
               || a.ChargeNext? || a.Ack? || a.StopWorker?)
    ensures Step(c, s, a).workers == s.workers
  {
  }

  lemma OtherWorkerKeeps(s: State, a: Action, w: nat)
    requires a.Read? || a.ClaimStalled? || a.Commit? || a.CommitUnconfirmed? || a.WriteFails?
             || a.ChargeNext? || a.Ack? || a.StopWorker?
    requires a.worker != w
    ensures WorkerAt(StepWork(s, a), w) == WorkerAt(s, w)
  {
  }

  /** A worker lets go of a batch it holds only by writing it, failing to, or stopping. */
  lemma KeepsItsBatch(c: Config, s: State, a: Action, w: nat)
    requires WorkerAt(s, w).phase.Holding?
    requires a != Commit(w) && a != CommitUnconfirmed(w) && a != WriteFails(w) && a != StopWorker(w)
    ensures WorkerAt(Step(c, s, a), w) == WorkerAt(s, w)
  {
    if a.Read? || a.ClaimStalled? || a.Commit? || a.CommitUnconfirmed? || a.WriteFails?
       || a.ChargeNext? || a.Ack? || a.StopWorker? {
      if a.worker != w { OtherWorkerKeeps(s, a, w); }
    } else {
      OthersKeepWorkers(c, s, a);
    }
  }

  function BatchOf(p: Phase): seq<nat> { if p.Idle? then [] else p.batch }

  /** Everything the worker is at work on was handed out by the group. */
  ghost predicate HandedTo(s: State, w: nat) { forall i | i in BatchOf(WorkerAt(s, w).phase) :: i < s.cursor }

  lemma ReadHands(s: State, w: nat, count: nat)
    requires HandedTo(s, w) && s.cursor <= |s.stream|
    ensures HandedTo(StepWork(s, Read(w, count)), w)
  {
    if WorkerAt(s, w).phase.Idle? {
      var hi := s.cursor + Min(count, |s.stream| - s.cursor);
      forall i | i in Decodable(s.stream, Upto(s.cursor, hi)) ensures i < hi { assert i in Upto(s.cursor, hi); }
    }
  }

  lemma ClaimHands(s: State, w: nat, ids: seq<nat>)
    requires HandedTo(s, w) && forall i | i in s.pending :: i < s.cursor
    ensures HandedTo(StepWork(s, ClaimStalled(w, ids)), w)
  {
  }

  lemma OwnBatch(s: State, a: Action, w: nat)
    requires a == Commit(w) || a == CommitUnconfirmed(w) || a == WriteFails(w) || a == ChargeNext(w) || a == Ack(w)
             || a == StopWorker(w)
    ensures var s' := StepWork(s, a);
            s'.cursor == s.cursor
            && (BatchOf(WorkerAt(s', w).phase) == BatchOf(WorkerAt(s, w).phase) || BatchOf(WorkerAt(s', w).phase) == [])
  {
  }

  lemma CursorGrows(c: Config, s: State, a: Action)
    ensures s.cursor <= Step(c, s, a).cursor
  {
  }

  lemma HandedStep(c: Config, s: State, a: Action, w: nat)
    requires HandedTo(s, w) && CursorOk(s.cursor, |s.stream|, s.pending, s.acked)
    ensures HandedTo(Step(c, s, a), w)
  {
    CursorGrows(c, s, a);
    if a.Read? || a.ClaimStalled? || a.Commit? || a.CommitUnconfirmed? || a.WriteFails?
       || a.ChargeNext? || a.Ack? || a.StopWorker? {
      if a.worker != w { OtherWorkerKeeps(s, a, w); }
      else if a.Read? { ReadHands(s, w, a.count); }
      else if a.ClaimStalled? { ClaimHands(s, w, a.ids); }
      else { OwnBatch(s, a, w); }
    } else {
      OthersKeepWorkers(c, s, a);
      assert WorkerAt(Step(c, s, a), w) == WorkerAt(s, w);
    }
  }

  /** In every run no worker is ever at work on a message the group has not handed out. */
  lemma {:induction false} HeldWasHandedOut(c: Config, acts: seq<Action>, w: nat)
    ensures HandedTo(Run(c, acts), w)
  {
    if acts != [] {
      var init, a := acts[..|acts| - 1], acts[|acts| - 1];
      HeldWasHandedOut(c, init, w);
      RunKeeps(c, init);
      HandedStep(c, Run(c, init), a, w);
    }
  }

  ghost function ChargedUpTo(c: Config, s: State, w: nat, n: nat): State {
    if n == 0 then s else Step(c, ChargedUpTo(c, s, w, n - 1), ChargeNext(w))
  }

  function Numbers(ds: seq<DeadLetter>): (r: seq<nat>)
    ensures |r| == |ds| && forall i | 0 <= i < |r| :: r[i] == ds[i].message
  {
    seq(|ds|, i requires 0 <= i < |ds| => ds[i].message)
  }

  /** The first `n` messages of the failed batch have been charged. */
  ghost predicate ChargedPrefix(s: State, s': State, w: nat, batch: seq<nat>, events: seq<Event>, n: nat)
    requires |events| == |batch| && n <= |batch|
  {
    var was := WorkerAt(s, w).attempts;
    var out := Exhausted(was, batch[..n], events[..n]);
    && s'.stream == s.stream && s'.table == s.table && s'.pending == s.pending && s'.acked == s.acked
    && s'.dead == s.dead + out
    && WorkerAt(s', w) == Worker(Failing(batch, n, Numbers(out)), ChargedAll(was, batch[..n]))
  }

  /** One charging step of the protocol. */
  lemma ChargeNextIs(c: Config, m: State, w: nat, batch: seq<nat>, n: nat, out: seq<nat>, attempts: map<nat, nat>)
    requires WorkerAt(m, w) == Worker(Failing(batch, n, out), attempts) && n < |batch|
    requires batch[n] < |m.stream| && m.stream[batch[n]].Message?
    ensures var m', count := Step(c, m, ChargeNext(w)), Attempts(attempts, batch[n]) + 1;
            && m'.stream == m.stream && m'.table == m.table && m'.pending == m.pending && m'.acked == m.acked
            && m'.dead == m.dead + (if count >= MAX_ATTEMPTS
                                    then [DeadLetter(batch[n], m.stream[batch[n]].event, count)] else [])
            && WorkerAt(m', w) == Worker(Failing(batch, n + 1, out + if count >= MAX_ATTEMPTS then [batch[n]] else []),
                                         Recounted(attempts, batch[n]))
  {
    assert out + [] == out && m.dead + [] == m.dead;
  }

  lemma NumbersSnoc(ds: seq<DeadLetter>, d: DeadLetter)
    ensures Numbers(ds + [d]) == Numbers(ds) + [d.message]
  {
  }

  lemma ChargeOneStep(c: Config, s: State, m: State, w: nat, batch: seq<nat>, events: seq<Event>, n: nat)
    requires (forall i | i in batch :: i < |s.stream| && s.stream[i].Message?) && events == Payloads(s.stream, batch)
    requires n < |batch| && ChargedPrefix(s, m, w, batch, events, n)
    ensures ChargedPrefix(s, Step(c, m, ChargeNext(w)), w, batch, events, n + 1)
  {
    var was := WorkerAt(s, w).attempts;
    var before := Exhausted(was, batch[..n], events[..n]);
    var attempts := ChargedAll(was, batch[..n]);
    assert batch[n] in batch;
    ChargeOneMore(was, batch, events, n);
    ChargeNextIs(c, m, w, batch, n, Numbers(before), attempts);
    var d := DeadLetter(batch[n], events[n], Attempts(attempts, batch[n]) + 1);
    if d.attempts >= MAX_ATTEMPTS {
      NumbersSnoc(before, d);
      assert (s.dead + before) + [d] == s.dead + (before + [d]);
    } else {
      assert before + [] == before && m.dead + [] == m.dead && Numbers(before) + [] == Numbers(before);
    }
  }

  /** A failed batch charged message by message and then acknowledged leaves what `HandleFailure` leaves. */
  lemma {:induction false} ChargingStepsAreHandleFailure(c: Config, s: State, w: nat, n: nat)
    requires var p := WorkerAt(s, w).phase;
             p.Failing? && p.next == 0 && p.exhausted == [] && n <= |p.batch|
             && forall i | i in p.batch :: i < |s.stream| && s.stream[i].Message?
    ensures var batch := WorkerAt(s, w).phase.batch;
            ChargedPrefix(s, ChargedUpTo(c, s, w, n), w, batch, Payloads(s.stream, batch), n)
  {
    if n > 0 {
      ChargingStepsAreHandleFailure(c, s, w, n - 1);
      var batch := WorkerAt(s, w).phase.batch;
      ChargeOneStep(c, s, ChargedUpTo(c, s, w, n - 1), w, batch, Payloads(s.stream, batch), n - 1);
    }
  }

  /** The acknowledgement at the end takes exactly what was set aside. */
  lemma AckOfCharged(c: Config, s: State, m: State, w: nat, batch: seq<nat>, events: seq<Event>)
    requires |events| == |batch| && ChargedPrefix(s, m, w, batch, events, |batch|)
    ensures var was := WorkerAt(s, w).attempts;
            var out, s' := Exhausted(was, batch, events), Step(c, m, Ack(w));
            && s'.table == s.table && s'.dead == s.dead + out
            && s'.pending == s.pending - MessagesOf(out) && s'.acked == s.acked + s.pending * MessagesOf(out)
            && WorkerAt(s', w) == Worker(Idle, ChargedAll(was, batch))
  {
    assert batch[..|batch|] == batch && events[..|batch|] == events;
    NumbersAreMessages(Exhausted(WorkerAt(s, w).attempts, batch, events));
  }

  lemma NumbersAreMessages(ds: seq<DeadLetter>)
    ensures SetOf(Numbers(ds)) == MessagesOf(ds)
  {
    forall m | m in MessagesOf(ds) ensures m in Numbers(ds) {
      var d :| d in ds && d.message == m;
      var i :| 0 <= i < |ds| && ds[i] == d;
      assert Numbers(ds)[i] == m;
    }
  }
}
