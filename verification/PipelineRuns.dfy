/** Every step of the pipeline, from publishing to dead-lettering, keeps the invariant; and so does every run. */
module PipelineRuns {
  import opened Common
  import opened Pipeline
  import B = Buffer

  /** The consumer group's facts survive anything that only adds. */
  lemma GrownKeeps(f: Facts, g: Facts, workers: map<nat, Worker>, acked: set<nat>)
    requires Grown(f, g)
    requires WorkersOk(f, workers) && AckedOk(f, acked)
    ensures WorkersOk(g, workers) && AckedOk(g, acked)
  {
    assert forall i | Stored(f, i) :: Stored(g, i);
    assert forall i | DeadLettered(f, i) :: DeadLettered(g, i) by {
      forall i | DeadLettered(f, i) ensures DeadLettered(g, i) {
        var j :| 0 <= j < |f.dead| && f.dead[j].message == i;
        assert g.dead[j].message == i;
      }
    }
    forall w | w in workers
      ensures PhaseOk(g, workers[w].phase) && AttemptsOk(g, workers[w].attempts)
    {
      assert PhaseOk(f, workers[w].phase) && AttemptsOk(f, workers[w].attempts);
    }
    forall i | i in acked ensures Kept(g, i) { assert Kept(f, i); }
  }

  lemma PublishKeeps(s: State, m: Message)
    requires Inv(s) && (m.Message? ==> Admissible(s.granted, m.event))
    ensures Inv(s.(stream := s.stream + [m]))
  {
    var s' := s.(stream := s.stream + [m]);
    GrownKeeps(FactsOf(s), FactsOf(s'), s.workers, s.acked);
    forall k | k in s.table ensures Message(s.table[k]) in s'.stream {
      assert Message(s.table[k]) in s.stream;
    }
  }

  lemma ShipKeeps(c: Config, s: State, a: Action)
    requires Inv(s)
    requires a.TakeChunk? || a.Xadd? || a.FlushDone? || a.FlushFailed? || a.StopTracker? || a.Corrupt?
    ensures Inv(StepShip(c, s, a))
  {
    if a.Corrupt? {
      PublishKeeps(s, Undecodable);
    } else if a.StopTracker? {
    } else {
      var b := TrackerAt(s, a.tracker);
      assert TrackerOk(s.granted, b);
      if a.Xadd? && b.sent < |b.chunk| {
        assert b.chunk[b.sent] in b.chunk;
        if a.applied { PublishKeeps(s, Message(b.chunk[b.sent])); }
      } else if a.TakeChunk? {
        var n := Min(|b.queue|, c.flushSize);
        assert AllAdmissible(s.granted, b.queue[n..]) && AllAdmissible(s.granted, b.queue[..n]);
      } else if a.FlushFailed? {
        forall e | e in B.Returned(b.chunk, b.queue, c.capacity) ensures Admissible(s.granted, e) {
          assert e in b.chunk + b.queue;
        }
      }
    }
  }

  lemma UptoMembers(lo: nat, hi: nat)
    requires lo <= hi
    ensures forall i: nat :: i in SetOf(Upto(lo, hi)) <==> lo <= i < hi
  {
    var ids := Upto(lo, hi);
    forall i: nat | lo <= i < hi ensures i in SetOf(ids) { assert ids[i - lo] == i; }
  }

  lemma ReadKeeps(s: State, w: nat, count: nat)
    requires Inv(s)
    ensures Inv(StepWork(s, Read(w, count)))
  {
    if WorkerAt(s, w).phase.Idle? { HandedOutKeeps(s, w, s.cursor + Min(count, |s.stream| - s.cursor)); }
  }

  lemma HandedOutKeeps(s: State, w: nat, hi: nat)
    requires Inv(s) && s.cursor <= hi <= |s.stream|
    ensures Inv(HandedOut(s, w, hi))
  {
    var ids := Upto(s.cursor, hi);
    UptoMembers(s.cursor, hi);
    CursorAdvances(s.cursor, hi, |s.stream|, s.pending, s.acked, SetOf(ids));
    HoldBatch(s, w, ids);
  }

  lemma CursorAdvances(cursor: nat, hi: nat, length: nat, pending: set<nat>, acked: set<nat>, ids: set<nat>)
    requires CursorOk(cursor, length, pending, acked) && cursor <= hi <= length
    requires forall i: nat :: i in ids <==> cursor <= i < hi
    ensures CursorOk(hi, length, pending + ids, acked)
  {
  }

  lemma HoldBatch(s: State, w: nat, ids: seq<nat>)
    requires Inv(s)
    ensures WorkersOk(FactsOf(s), s.workers[w := WorkerAt(s, w).(phase := Holding(Decodable(s.stream, ids)))])
  {
    assert AttemptsOk(FactsOf(s), WorkerAt(s, w).attempts);
    ReplaceWorker(FactsOf(s), s.workers, w, WorkerAt(s, w).(phase := Holding(Decodable(s.stream, ids))));
  }

  lemma ClaimKeeps(s: State, w: nat, ids: seq<nat>)
    requires Inv(s)
    ensures Inv(StepWork(s, ClaimStalled(w, ids)))
  {
  }

  lemma InsertedRowsWerePublished(stream: seq<Message>, table: Table, dead: seq<DeadLetter>, batch: seq<nat>)
    requires StoresOk(stream, table, dead)
    requires forall i | i in batch :: i < |stream| && stream[i].Message?
    ensures StoresOk(stream, InsertAll(table, Payloads(stream, batch)), dead)
  {
    var events := Payloads(stream, batch);
    var table' := InsertAll(table, events);
    InsertAllGrows(table, events);
    forall k | k in table' ensures RowKeyOf(table'[k]) == k && Message(table'[k]) in stream {
      if k !in table {
        var j :| 0 <= j < |events| && events[j] == table'[k];
        assert stream[batch[j]] == Message(events[j]);
      }
    }
  }

  lemma InsertedBatchIsStored(f: Facts, batch: seq<nat>)
    requires BatchOk(f, batch)
    ensures var g := f.(table := InsertAll(f.table, Payloads(f.stream, batch)));
            Grown(f, g) && forall i | i in batch :: Stored(g, i)
  {
    var events := Payloads(f.stream, batch);
    InsertAllGrows(f.table, events);
    forall i | i in batch ensures RowKeyOf(f.stream[i].event) in InsertAll(f.table, events) {
      var j :| 0 <= j < |batch| && batch[j] == i;
      assert events[j] in events;
    }
  }

  lemma WrittenKeeps(s: State, w: nat, phase: Phase)
    requires Inv(s) && CanWrite(s, w)
    requires phase == Committed(WorkerAt(s, w).phase.batch) || phase == Failing(WorkerAt(s, w).phase.batch, 0, [])
    ensures Inv(Written(s, w, phase))
  {
    var batch := WorkerAt(s, w).phase.batch;
    InsertedRowsWerePublished(s.stream, s.table, s.dead, batch);
    InsertedBatchIsStored(FactsOf(s), batch);
    GrownKeeps(FactsOf(s), FactsOf(Written(s, w, phase)), s.workers, s.acked);
  }

  lemma ChargedMore(f: Facts, g: Facts, id: nat)
    requires DeadOk(f) && f.stream == g.stream && f.table == g.table
    requires g.charged == f.charged[id := Attempts(f.charged, id) + 1]
    requires g.dead == f.dead || (MAX_ATTEMPTS <= Attempts(g.charged, id)
                                  && |g.dead| == |f.dead| + 1 && f.dead <= g.dead && g.dead[|f.dead|].message == id)
    ensures Grown(f, g) && DeadOk(g) && (g.dead != f.dead ==> DeadLettered(g, id))
  {
    assert forall i: nat :: Attempts(f.charged, i) <= Attempts(g.charged, i);
    forall j | 0 <= j < |g.dead| ensures MAX_ATTEMPTS <= Attempts(g.charged, g.dead[j].message) {
      if j < |f.dead| { assert g.dead[j] == f.dead[j]; }
    }
  }

  lemma RecountedOk(f: Facts, g: Facts, attempts: map<nat, nat>, id: nat)
    requires AttemptsOk(f, attempts) && Grown(f, g)
    requires Attempts(g.charged, id) == Attempts(f.charged, id) + 1
    ensures AttemptsOk(g, Recounted(attempts, id))
    ensures Attempts(attempts, id) + 1 <= Attempts(g.charged, id)
  {
    forall i | i in Recounted(attempts, id) ensures Recounted(attempts, id)[i] <= Attempts(g.charged, i) {
      assert i == id || (i in attempts && Attempts(f.charged, i) <= Attempts(g.charged, i));
    }
  }

  lemma ReplaceWorker(g: Facts, workers: map<nat, Worker>, w: nat, worker: Worker)
    requires WorkersOk(g, workers) && PhaseOk(g, worker.phase) && AttemptsOk(g, worker.attempts)
    ensures WorkersOk(g, workers[w := worker])
  {
  }

  lemma DeadLettersPublished(stream: seq<Message>, table: Table, dead: seq<DeadLetter>, id: nat, n: nat)
    requires StoresOk(stream, table, dead) && id < |stream| && stream[id].Message?
    ensures StoresOk(stream, table, dead + [DeadLetter(id, stream[id].event, n)])
  {
  }

  lemma FailingGoesOn(f: Facts, g: Facts, p: Phase, p': Phase, id: nat)
    requires p.Failing? && PhaseOk(f, p) && Grown(f, g) && f.stream == g.stream
    requires p'.Failing? && p'.batch == p.batch
    requires p'.exhausted == p.exhausted || (p'.exhausted == p.exhausted + [id] && DeadLettered(g, id))
    ensures PhaseOk(g, p')
  {
    forall i | i in p'.exhausted ensures DeadLettered(g, i) {
      if i in p.exhausted {
        assert DeadLettered(f, i);
        var j :| 0 <= j < |f.dead| && f.dead[j].message == i;
        assert g.dead[j].message == i;
      }
    }
  }

  lemma ChargeKeeps(s: State, w: nat, id: nat)
    requires Inv(s)
    requires WorkerAt(s, w).phase.Failing? && id < |s.stream| && s.stream[id].Message?
    ensures Inv(Charge(s, w, id))
  {
    var s' := Charge(s, w, id);
    var f, g := FactsOf(s), FactsOf(s');
    var worker := WorkerAt(s, w);
    assert PhaseOk(f, worker.phase) && AttemptsOk(f, worker.attempts);
    assert Attempts(worker.attempts, id) <= Attempts(f.charged, id);
    ChargedMore(f, g, id);
    RecountedOk(f, g, worker.attempts, id);
    GrownKeeps(f, g, s.workers, s.acked);
    DeadLettersPublished(s.stream, s.table, s.dead, id, Attempts(worker.attempts, id) + 1);
    FailingGoesOn(f, g, worker.phase, s'.workers[w].phase, id);
    ReplaceWorker(g, s.workers, w, s'.workers[w]);
  }

  lemma AcknowledgeKeeps(s: State, w: nat, ids: seq<nat>, attempts: map<nat, nat>)
    requires Inv(s)
    requires forall i | i in ids :: Kept(FactsOf(s), i)
    requires AttemptsOk(FactsOf(s), attempts)
    ensures Inv(Acknowledge(s, w, ids, attempts))
  {
  }

  lemma AckKeeps(s: State, w: nat)
    requires Inv(s)
    ensures Inv(StepWork(s, Ack(w)))
  {
    var worker := WorkerAt(s, w);
    var f := FactsOf(s);
    assert PhaseOk(f, worker.phase) && AttemptsOk(f, worker.attempts);
    var p := worker.phase;
    if p.Committed? {
      AcknowledgeKeeps(s, w, p.batch, map i | i in worker.attempts && i !in p.batch :: worker.attempts[i]);
    } else if p.Failing? && p.next == |p.batch| {
      AcknowledgeKeeps(s, w, p.exhausted, worker.attempts);
    }
  }

  lemma WorkKeeps(s: State, a: Action)
    requires Inv(s)
    requires a.Commit? || a.CommitUnconfirmed? || a.WriteFails? || a.ChargeNext? || a.StopWorker?
    ensures Inv(StepWork(s, a))
  {
    match a
    case Commit(w) => if CanWrite(s, w) { WrittenKeeps(s, w, Committed(WorkerAt(s, w).phase.batch)); }
    case CommitUnconfirmed(w) => if CanWrite(s, w) { WrittenKeeps(s, w, Failing(WorkerAt(s, w).phase.batch, 0, [])); }
    case ChargeNext(w) =>
      var p := WorkerAt(s, w).phase;
      if p.Failing? && p.next < |p.batch| && p.batch[p.next] < |s.stream| && s.stream[p.batch[p.next]].Message? {
        ChargeKeeps(s, w, p.batch[p.next]);
      }
    case WriteFails(w) => assert PhaseOk(FactsOf(s), WorkerAt(s, w).phase);
    case StopWorker(w) =>
  }

  lemma StepKeeps(c: Config, s: State, a: Action)
    requires Inv(s)
    ensures Inv(Step(c, s, a))
  {
    if a.Arrive? || a.Forget? || a.LoseMark? { EdgeKeeps(c, s, a); }
    else if a.SetIfAbsent? { SetIfAbsentKeeps(c, s, a.request); }
    else if a.Append? { AppendKeeps(c, s, a.request); }
    else if a.Read? { ReadKeeps(s, a.worker, a.count); }
    else if a.ClaimStalled? { ClaimKeeps(s, a.worker, a.ids); }
    else if a.Ack? { AckKeeps(s, a.worker); }
    else if a.Commit? || a.CommitUnconfirmed? || a.WriteFails? || a.ChargeNext? || a.StopWorker? { WorkKeeps(s, a); }
    else { ShipKeeps(c, s, a); }
  }

  lemma {:induction false} RunKeeps(c: Config, acts: seq<Action>)
    ensures Inv(Run(c, acts))
  {
    if acts == [] {
      assert forall app, uuid :: MarksIn({}, app, uuid) == {};
    } else {
      RunKeeps(c, acts[..|acts| - 1]);
      StepKeeps(c, Run(c, acts[..|acts| - 1]), acts[|acts| - 1]);
    }
  }
}
