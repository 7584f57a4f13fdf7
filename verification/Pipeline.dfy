/**
  The event pipeline as a protocol: edge processes mark, buffer and publish; workers read a consumer
  group, write one transaction, and acknowledge. Any process may stop between any two steps.

  Every single Redis command and every database transaction is one step. `Run` takes an arbitrary
  sequence of steps, so a statement about `Run(acts)` for all `acts` is a statement about every
  interleaving of every number of processes.
 */
module Pipeline {
  import opened Common
  import B = Buffer

  const MAX_ATTEMPTS: nat := 5

  // --- data ---

  /** A client's event id. The edge parses it as a UUID but marks the text it was sent as; `spelling`
      numbers the texts that parse to one UUID (letter case, hyphens, braces). */
  datatype EventId = EventId(uuid: nat, spelling: nat)

  /** The name of an idempotency mark: `seen:{app_id}:{event_id}`. */
  datatype Key = Key(app: nat, id: EventId)

  datatype Event = Event(key: Key, receivedAt: int, body: nat)

  /** The primary key of the events table. */
  datatype RowKey = RowKey(receivedAt: int, app: nat, uuid: nat)

  function RowKeyOf(e: Event): RowKey { RowKey(e.receivedAt, e.key.app, e.key.id.uuid) }

  type Table = map<RowKey, Event>

  datatype Message = Message(event: Event) | Undecodable

  datatype DeadLetter = DeadLetter(message: nat, event: Event, attempts: nat)

  datatype Request =
    | Marking(tracker: nat, app: nat, receivedAt: int, events: seq<Event>, next: nat, news: set<EventId>)
    | Forgetting(tracker: nat, keys: seq<Key>)

  /** One edge process. `sent` counts the XADDs of the chunk already answered, `clean` that none failed. */
  datatype Tracker = Tracker(queue: seq<Event>, chunk: seq<Event>, sent: nat, clean: bool)

  datatype Phase =
    | Idle
    | Holding(batch: seq<nat>)
    | Committed(batch: seq<nat>)
    | Failing(batch: seq<nat>, next: nat, exhausted: seq<nat>)

  datatype Worker = Worker(phase: Phase, attempts: map<nat, nat>)

  /** A successful set-if-absent, with the arrival time of the request that made it. */
  datatype Stamp = Stamp(key: Key, receivedAt: int)

  datatype State = State(
    marks: set<Key>,
    granted: seq<Stamp>,          // history of successful marks
    removed: seq<Key>,            // history of marks that expired, were lost or were forgotten
    requests: map<nat, Request>,
    trackers: map<nat, Tracker>,
    stream: seq<Message>,
    cursor: nat,                  // the group has been handed messages [0, cursor)
    pending: set<nat>,
    acked: set<nat>,
    workers: map<nat, Worker>,
    table: Table,
    dead: seq<DeadLetter>,
    charged: map<nat, nat>)       // history: failed writes charged to each message

  const Start: State := State({}, [], [], map[], map[], [], 0, {}, {}, map[], map[], [], map[])

  datatype Config = Config(capacity: nat, flushSize: nat)

  // --- steps ---

  datatype Action =
    | Arrive(request: nat, tracker: nat, app: nat, now: int, events: seq<(EventId, nat)>)
    | SetIfAbsent(request: nat)
    | Append(request: nat)
    | Forget(request: nat)
    | LoseMark(key: Key)
    | TakeChunk(tracker: nat)
    | Xadd(tracker: nat, applied: bool)
    | FlushDone(tracker: nat)
    | FlushFailed(tracker: nat)
    | StopTracker(tracker: nat)
    | Corrupt
    | Read(worker: nat, count: nat)
    | ClaimStalled(worker: nat, ids: seq<nat>)
    | Commit(worker: nat)
    | CommitUnconfirmed(worker: nat)
    | WriteFails(worker: nat)
    | ChargeNext(worker: nat)
    | Ack(worker: nat)
    | StopWorker(worker: nat)

  function TrackerAt(s: State, t: nat): Tracker {
    if t in s.trackers then s.trackers[t] else Tracker([], [], 0, true)
  }

  function WorkerAt(s: State, w: nat): Worker {
    if w in s.workers then s.workers[w] else Worker(Idle, map[])
  }

  function Stamped(app: nat, now: int, events: seq<(EventId, nat)>): (r: seq<Event>)
    ensures |r| == |events|
    ensures forall e | e in r :: e.key.app == app && e.receivedAt == now
  {
    seq(|events|, i requires 0 <= i < |events| => Event(Key(app, events[i].0), now, events[i].1))
  }

  /** `[event for event in queued if event.event_id in fresh]` */
  function Accepted(events: seq<Event>, news: set<EventId>): (r: seq<Event>)
    ensures |r| <= |events|
    ensures forall e | e in r :: e in events && e.key.id in news
    ensures forall e | e in events && e.key.id in news :: e in r
  {
    if events == [] then []
    else (if events[0].key.id in news then [events[0]] else []) + Accepted(events[1..], news)
  }

  function KeysOf(events: seq<Event>): (r: seq<Key>)
    ensures |r| == |events|
  {
    seq(|events|, i requires 0 <= i < |events| => events[i].key)
  }

  /** One row, unless its primary key is taken. */
  function Insert(table: Table, e: Event): Table {
    if RowKeyOf(e) in table then table else table[RowKeyOf(e) := e]
  }

  /** `INSERT ... SELECT ... ON CONFLICT DO NOTHING` from the staging table. */
  function InsertAll(table: Table, events: seq<Event>): Table
    decreases |events|
  {
    if events == [] then table else InsertAll(Insert(table, events[0]), events[1..])
  }

  function Decodable(stream: seq<Message>, ids: seq<nat>): (r: seq<nat>)
    ensures forall i | i in r :: i in ids && i < |stream| && stream[i].Message?
  {
    if ids == [] then []
    else (if ids[0] < |stream| && stream[ids[0]].Message? then [ids[0]] else []) + Decodable(stream, ids[1..])
  }

  function Payloads(stream: seq<Message>, ids: seq<nat>): (r: seq<Event>)
    requires forall i | i in ids :: i < |stream| && stream[i].Message?
    ensures |r| == |ids|
    ensures forall j | 0 <= j < |ids| :: ids[j] in ids && r[j] == stream[ids[j]].event
  {
    seq(|ids|, j requires 0 <= j < |ids| => assert ids[j] in ids; stream[ids[j]].event)
  }

  function Upto(lo: nat, hi: nat): (r: seq<nat>)
    requires lo <= hi
    ensures |r| == hi - lo && forall i | 0 <= i < |r| :: r[i] == lo + i
  {
    seq(hi - lo, i requires 0 <= i => lo + i)
  }

  function SetOf(ids: seq<nat>): set<nat> { set i | i in ids }

  function Attempts(attempts: map<nat, nat>, id: nat): nat {
    if id in attempts then attempts[id] else 0
  }

  function DropRequests(requests: map<nat, Request>, t: nat): map<nat, Request> {
    map r | r in requests && requests[r].tracker != t :: requests[r]
  }

  function StepEdge(c: Config, s: State, a: Action): (s': State)
    requires a.Arrive? || a.SetIfAbsent? || a.Append? || a.Forget? || a.LoseMark?
    ensures s'.table == s.table && s'.stream == s.stream
  {
    match a
    case Arrive(r, t, app, now, events) =>
      if r in s.requests then s
      else s.(requests := s.requests[r := Marking(t, app, now, Stamped(app, now, events), 0, {})])
    case SetIfAbsent(r) => MarkNext(s, r)
    case Append(r) =>
      if r in s.requests && s.requests[r].Marking? && s.requests[r].next == |s.requests[r].events| then
        var q := s.requests[r];
        var t := TrackerAt(s, q.tracker);
        var accepted := Accepted(q.events, q.news);
        var shed := B.ShedCount(t.queue, accepted, c.capacity);
        s.(trackers := s.trackers[q.tracker := t.(queue := B.Admitted(t.queue, accepted, c.capacity))],
           requests := s.requests[r := Forgetting(q.tracker, KeysOf(accepted[..Min(shed, |accepted|)]))])
      else s
    case Forget(r) =>
      if r in s.requests && s.requests[r].Forgetting? then
        var q := s.requests[r];
        if q.keys == [] then s.(requests := s.requests - {r})
        else Unmark(s.(requests := s.requests[r := q.(keys := q.keys[1..])]), q.keys[0])
      else s
    case LoseMark(k) => Unmark(s, k)
  }

  /** Set the mark of the request's next event if it is absent. */
  function MarkNext(s: State, r: nat): State {
    if r in s.requests && s.requests[r].Marking? && s.requests[r].next < |s.requests[r].events| then
      var q := s.requests[r];
      var k := q.events[q.next].key;
      if k in s.marks then s.(requests := s.requests[r := q.(next := q.next + 1)])
      else s.(requests := s.requests[r := q.(next := q.next + 1, news := q.news + {k.id})],
              marks := s.marks + {k},
              granted := s.granted + [Stamp(k, q.receivedAt)])
    else s
  }

  function Unmark(s: State, k: Key): State {
    if k in s.marks then s.(marks := s.marks - {k}, removed := s.removed + [k]) else s
  }

  function StepShip(c: Config, s: State, a: Action): (s': State)
    requires a.TakeChunk? || a.Xadd? || a.FlushDone? || a.FlushFailed? || a.StopTracker? || a.Corrupt?
    ensures s'.table == s.table && s'.marks == s.marks
    ensures s'.requests == if a.StopTracker? then DropRequests(s.requests, a.tracker) else s.requests
  {
    match a
    case TakeChunk(t) =>
      var b := TrackerAt(s, t);
      if b.chunk != [] then s
      else
        var n := Min(|b.queue|, c.flushSize);
        s.(trackers := s.trackers[t := Tracker(b.queue[n..], b.queue[..n], 0, true)])
    case Xadd(t, applied) =>
      var b := TrackerAt(s, t);
      if b.sent >= |b.chunk| then s
      else s.(trackers := s.trackers[t := b.(sent := b.sent + 1, clean := b.clean && applied)],
              stream := if applied then s.stream + [Message(b.chunk[b.sent])] else s.stream)
    case FlushDone(t) =>
      var b := TrackerAt(s, t);
      if b.sent == |b.chunk| && b.clean then s.(trackers := s.trackers[t := Tracker(b.queue, [], 0, true)]) else s
    case FlushFailed(t) =>
      var b := TrackerAt(s, t);
      s.(trackers := s.trackers[t := Tracker(B.Returned(b.chunk, b.queue, c.capacity), [], 0, true)])
    case StopTracker(t) => s.(trackers := s.trackers - {t}, requests := DropRequests(s.requests, t))
    case Corrupt => s.(stream := s.stream + [Undecodable])
  }

  /** The messages from the cursor up to `hi`, handed to one worker and pending from then on. */
  function HandedOut(s: State, w: nat, hi: nat): State
    requires s.cursor <= hi <= |s.stream|
  {
    var ids := Upto(s.cursor, hi);
    s.(cursor := hi, pending := s.pending + SetOf(ids),
       workers := s.workers[w := WorkerAt(s, w).(phase := Holding(Decodable(s.stream, ids)))])
  }

  function StepWork(s: State, a: Action): (s': State)
    requires a.Read? || a.ClaimStalled? || a.Commit? || a.CommitUnconfirmed? || a.WriteFails?
             || a.ChargeNext? || a.Ack? || a.StopWorker?
    ensures s'.marks == s.marks && s'.requests == s.requests && s'.stream == s.stream
    ensures !a.Commit? && !a.CommitUnconfirmed? ==> s'.table == s.table
  {
    match a
    case Read(w, count) =>
      if WorkerAt(s, w).phase.Idle? && s.cursor <= |s.stream|
      then HandedOut(s, w, s.cursor + Min(count, |s.stream| - s.cursor)) else s
    case ClaimStalled(w, ids) =>
      if WorkerAt(s, w).phase.Idle? && forall i | i in ids :: i in s.pending then
        s.(workers := s.workers[w := WorkerAt(s, w).(phase := Holding(Decodable(s.stream, ids)))])
      else s
    case Commit(w) => if CanWrite(s, w) then Written(s, w, Committed(WorkerAt(s, w).phase.batch)) else s
    case CommitUnconfirmed(w) =>
      if CanWrite(s, w) then Written(s, w, Failing(WorkerAt(s, w).phase.batch, 0, [])) else s
    case WriteFails(w) =>
      if CanWrite(s, w) then
        s.(workers := s.workers[w := WorkerAt(s, w).(phase := Failing(WorkerAt(s, w).phase.batch, 0, []))])
      else s
    case ChargeNext(w) =>
      var p := WorkerAt(s, w).phase;
      if p.Failing? && p.next < |p.batch| && p.batch[p.next] < |s.stream| && s.stream[p.batch[p.next]].Message?
      then Charge(s, w, p.batch[p.next]) else s
    case Ack(w) =>
      var p := WorkerAt(s, w).phase;
      if p.Committed? then
        Acknowledge(s, w, p.batch, map i | i in WorkerAt(s, w).attempts && i !in p.batch :: WorkerAt(s, w).attempts[i])
      else if p.Failing? && p.next == |p.batch| then Acknowledge(s, w, p.exhausted, WorkerAt(s, w).attempts)
      else s
    case StopWorker(w) => s.(workers := s.workers - {w})
  }

  predicate CanWrite(s: State, w: nat) {
    && WorkerAt(s, w).phase.Holding?
    && forall i | i in WorkerAt(s, w).phase.batch :: i < |s.stream| && s.stream[i].Message?
  }

  function Written(s: State, w: nat, phase: Phase): State
    requires CanWrite(s, w)
  {
    s.(table := InsertAll(s.table, Payloads(s.stream, WorkerAt(s, w).phase.batch)),
       workers := s.workers[w := WorkerAt(s, w).(phase := phase)])
  }

  /** One more failed attempt; a message that reaches the limit is forgotten here, having been set aside. */
  function Recounted(attempts: map<nat, nat>, id: nat): map<nat, nat> {
    if Attempts(attempts, id) + 1 >= MAX_ATTEMPTS then attempts - {id}
    else attempts[id := Attempts(attempts, id) + 1]
  }

  /** One turn of the loop in `_handle_failure`: count the attempt, and dead-letter the fifth. */
  function Charge(s: State, w: nat, id: nat): State
    requires WorkerAt(s, w).phase.Failing? && id < |s.stream| && s.stream[id].Message?
  {
    var worker := WorkerAt(s, w);
    var p := worker.phase;
    var n := Attempts(worker.attempts, id) + 1;
    var s' := s.(charged := s.charged[id := Attempts(s.charged, id) + 1]);
    if n >= MAX_ATTEMPTS then
      s'.(dead := s.dead + [DeadLetter(id, s.stream[id].event, n)],
          workers := s.workers[w := Worker(p.(next := p.next + 1, exhausted := p.exhausted + [id]),
                                           Recounted(worker.attempts, id))])
    else
      s'.(workers := s.workers[w := Worker(p.(next := p.next + 1), Recounted(worker.attempts, id))])
  }

  /** XACK: what is pending leaves the pending list, the rest is ignored. */
  function Acknowledge(s: State, w: nat, ids: seq<nat>, attempts: map<nat, nat>): State {
    s.(pending := s.pending - SetOf(ids), acked := s.acked + (s.pending * SetOf(ids)),
       workers := s.workers[w := Worker(Idle, attempts)])
  }

  function Step(c: Config, s: State, a: Action): State {
    if a.Arrive? || a.SetIfAbsent? || a.Append? || a.Forget? || a.LoseMark? then StepEdge(c, s, a)
    else if a.TakeChunk? || a.Xadd? || a.FlushDone? || a.FlushFailed? || a.StopTracker? || a.Corrupt?
    then StepShip(c, s, a)
    else StepWork(s, a)
  }

  function Run(c: Config, acts: seq<Action>): State {
    if acts == [] then Start else Step(c, Run(c, acts[..|acts| - 1]), acts[|acts| - 1])
  }

  // --- what every step keeps: where events come from ---

  predicate InScope(k: Key, app: nat, uuid: nat) { k.app == app && k.id.uuid == uuid }

  ghost function Grants(log: seq<Stamp>, app: nat, uuid: nat): nat {
    if log == [] then 0
    else Grants(log[..|log| - 1], app, uuid) + (if InScope(log[|log| - 1].key, app, uuid) then 1 else 0)
  }

  ghost function Removals(log: seq<Key>, app: nat, uuid: nat): nat {
    if log == [] then 0
    else Removals(log[..|log| - 1], app, uuid) + (if InScope(log[|log| - 1], app, uuid) then 1 else 0)
  }

  ghost function MarksIn(marks: set<Key>, app: nat, uuid: nat): set<Key> {
    set k | k in marks && InScope(k, app, uuid)
  }

  /** Marks granted and not removed are the marks that stand. */
  ghost predicate Balanced(marks: set<Key>, granted: seq<Stamp>, removed: seq<Key>, app: nat, uuid: nat) {
    Grants(granted, app, uuid) == Removals(removed, app, uuid) + |MarksIn(marks, app, uuid)|
  }

  ghost predicate MarksBalance(marks: set<Key>, granted: seq<Stamp>, removed: seq<Key>) {
    forall app, uuid {:trigger Balanced(marks, granted, removed, app, uuid)} ::
      Balanced(marks, granted, removed, app, uuid)
  }

  /** The event was let in by a mark of its own id, at its own arrival time. */
  predicate Admissible(granted: seq<Stamp>, e: Event) { Stamp(e.key, e.receivedAt) in granted }

  ghost predicate AllAdmissible(granted: seq<Stamp>, es: seq<Event>) {
    forall e | e in es :: Admissible(granted, e)
  }

  ghost predicate RequestOk(granted: seq<Stamp>, q: Request) {
    q.Marking? ==>
      && (forall e | e in q.events :: e.key.app == q.app && e.receivedAt == q.receivedAt)
      && (forall id | id in q.news :: Stamp(Key(q.app, id), q.receivedAt) in granted)
  }

  ghost predicate TrackerOk(granted: seq<Stamp>, t: Tracker) {
    AllAdmissible(granted, t.queue) && AllAdmissible(granted, t.chunk)
  }

  ghost predicate EdgeOk(granted: seq<Stamp>, requests: map<nat, Request>, trackers: map<nat, Tracker>) {
    && (forall r | r in requests :: RequestOk(granted, requests[r]))
    && (forall t | t in trackers :: TrackerOk(granted, trackers[t]))
  }

  ghost predicate StreamOk(granted: seq<Stamp>, stream: seq<Message>) {
    forall m | m in stream && m.Message? :: Admissible(granted, m.event)
  }

  /** Nothing is stored or set aside that was not published. */
  ghost predicate StoresOk(stream: seq<Message>, table: Table, dead: seq<DeadLetter>) {
    && (forall k | k in table :: RowKeyOf(table[k]) == k && Message(table[k]) in stream)
    && (forall d | d in dead :: d.message < |stream| && stream[d.message] == Message(d.event))
  }

  // --- what every step keeps: the consumer group ---

  /** What a worker may rely on; every component only ever grows. */
  datatype Facts = Facts(stream: seq<Message>, table: Table, dead: seq<DeadLetter>, charged: map<nat, nat>)

  ghost predicate Grown(f: Facts, g: Facts) {
    && f.stream <= g.stream && f.table.Keys <= g.table.Keys && f.dead <= g.dead
    && forall i: nat :: Attempts(f.charged, i) <= Attempts(g.charged, i)
  }

  ghost predicate Stored(f: Facts, i: nat) {
    i < |f.stream| && f.stream[i].Message? && RowKeyOf(f.stream[i].event) in f.table
  }

  ghost predicate DeadLettered(f: Facts, i: nat) { exists j :: 0 <= j < |f.dead| && f.dead[j].message == i }

  ghost predicate Kept(f: Facts, i: nat) { Stored(f, i) || DeadLettered(f, i) }

  ghost predicate BatchOk(f: Facts, batch: seq<nat>) {
    forall i | i in batch :: i < |f.stream| && f.stream[i].Message?
  }

  ghost predicate PhaseOk(f: Facts, p: Phase) {
    match p
    case Idle => true
    case Holding(batch) => BatchOk(f, batch)
    case Committed(batch) => forall i | i in batch :: Stored(f, i)
    case Failing(batch, _, exhausted) => BatchOk(f, batch) && forall i | i in exhausted :: DeadLettered(f, i)
  }

  ghost predicate AttemptsOk(f: Facts, attempts: map<nat, nat>) {
    forall i | i in attempts :: attempts[i] <= Attempts(f.charged, i)
  }

  ghost predicate WorkersOk(f: Facts, workers: map<nat, Worker>) {
    forall w | w in workers :: PhaseOk(f, workers[w].phase) && AttemptsOk(f, workers[w].attempts)
  }

  ghost predicate AckedOk(f: Facts, acked: set<nat>) { forall i | i in acked :: Kept(f, i) }

  ghost predicate DeadOk(f: Facts) {
    forall j | 0 <= j < |f.dead| :: MAX_ATTEMPTS <= Attempts(f.charged, f.dead[j].message)
  }

  /** Pending and acknowledged messages together are exactly those handed out. */
  ghost predicate CursorOk(cursor: nat, length: nat, pending: set<nat>, acked: set<nat>) {
    cursor <= length && pending !! acked && forall i: nat :: (i in pending || i in acked) <==> i < cursor
  }

  function FactsOf(s: State): Facts { Facts(s.stream, s.table, s.dead, s.charged) }

  ghost predicate GroupOk(s: State) {
    && CursorOk(s.cursor, |s.stream|, s.pending, s.acked)
    && WorkersOk(FactsOf(s), s.workers)
    && AckedOk(FactsOf(s), s.acked)
    && DeadOk(FactsOf(s))
  }

  ghost predicate Sourced(s: State) {
    && EdgeOk(s.granted, s.requests, s.trackers)
    && StreamOk(s.granted, s.stream)
    && StoresOk(s.stream, s.table, s.dead)
  }

  ghost predicate Inv(s: State) {
    MarksBalance(s.marks, s.granted, s.removed) && Sourced(s) && GroupOk(s)
  }

  // --- preservation ---

  lemma {:induction false} InsertAllGrows(table: Table, events: seq<Event>)
    ensures table.Keys <= InsertAll(table, events).Keys
    ensures forall k | k in table :: InsertAll(table, events)[k] == table[k]
    ensures forall e | e in events :: RowKeyOf(e) in InsertAll(table, events)
    ensures forall k | k in InsertAll(table, events) && k !in table ::
              InsertAll(table, events)[k] in events && RowKeyOf(InsertAll(table, events)[k]) == k
    decreases |events|
  {
    if events != [] {
      InsertAllGrows(Insert(table, events[0]), events[1..]);
    }
  }

  lemma MarkStep(marks: set<Key>, granted: seq<Stamp>, removed: seq<Key>, k: Key, at: int)
    requires MarksBalance(marks, granted, removed) && k !in marks
    ensures MarksBalance(marks + {k}, granted + [Stamp(k, at)], removed)
  {
    var log := granted + [Stamp(k, at)];
    assert log[..|log| - 1] == granted;
    forall app: nat, uuid: nat ensures Balanced(marks + {k}, log, removed, app, uuid) {
      assert Balanced(marks, granted, removed, app, uuid);
      assert MarksIn(marks + {k}, app, uuid)
             == MarksIn(marks, app, uuid) + (if InScope(k, app, uuid) then {k} else {});
    }
  }

  lemma UnmarkStep(marks: set<Key>, granted: seq<Stamp>, removed: seq<Key>, k: Key)
    requires MarksBalance(marks, granted, removed) && k in marks
    ensures MarksBalance(marks - {k}, granted, removed + [k])
  {
    var log := removed + [k];
    assert log[..|log| - 1] == removed;
    forall app: nat, uuid: nat ensures Balanced(marks - {k}, granted, log, app, uuid) {
      assert Balanced(marks, granted, removed, app, uuid);
      assert MarksIn(marks, app, uuid)
             == MarksIn(marks - {k}, app, uuid) + (if InScope(k, app, uuid) then {k} else {});
    }
  }

  lemma UnmarkKeeps(s: State, k: Key)
    requires Inv(s)
    ensures Inv(Unmark(s, k))
  {
    if k in s.marks {
      UnmarkStep(s.marks, s.granted, s.removed, k);
    }
  }

  /** More marks granted never disqualify an event. */
  lemma GrantMore(granted: seq<Stamp>, x: Stamp, requests: map<nat, Request>, trackers: map<nat, Tracker>,
                  stream: seq<Message>)
    requires EdgeOk(granted, requests, trackers) && StreamOk(granted, stream)
    ensures EdgeOk(granted + [x], requests, trackers) && StreamOk(granted + [x], stream)
  {
    assert forall y :: y in granted ==> y in granted + [x];
    forall r | r in requests ensures RequestOk(granted + [x], requests[r]) {
      assert RequestOk(granted, requests[r]);
    }
    forall t | t in trackers ensures TrackerOk(granted + [x], trackers[t]) {
      assert TrackerOk(granted, trackers[t]);
    }
  }

  lemma SetIfAbsentKeeps(c: Config, s: State, r: nat)
    requires Inv(s)
    ensures Inv(StepEdge(c, s, SetIfAbsent(r)))
  {
    if r in s.requests && s.requests[r].Marking? && s.requests[r].next < |s.requests[r].events| {
      var q := s.requests[r];
      var k := q.events[q.next].key;
      assert q.events[q.next] in q.events && RequestOk(s.granted, q);
      if k !in s.marks {
        MarkStep(s.marks, s.granted, s.removed, k, q.receivedAt);
        GrantMore(s.granted, Stamp(k, q.receivedAt), s.requests, s.trackers, s.stream);
        assert RequestOk(s.granted + [Stamp(k, q.receivedAt)], q);
      }
    }
  }

  lemma AppendKeeps(c: Config, s: State, r: nat)
    requires Inv(s)
    ensures Inv(StepEdge(c, s, Append(r)))
  {
    if r in s.requests && s.requests[r].Marking? && s.requests[r].next == |s.requests[r].events| {
      var q := s.requests[r];
      assert RequestOk(s.granted, q);
      var t := TrackerAt(s, q.tracker);
      assert TrackerOk(s.granted, t);
      var accepted := Accepted(q.events, q.news);
      forall e | e in B.Admitted(t.queue, accepted, c.capacity) ensures Admissible(s.granted, e) {
        assert e in t.queue || e in accepted;
        if e in accepted {
          assert Stamp(Key(q.app, e.key.id), q.receivedAt) in s.granted;
          assert e.key == Key(q.app, e.key.id);
        }
      }
    }
  }

  lemma EdgeKeeps(c: Config, s: State, a: Action)
    requires Inv(s)
    requires a.Arrive? || a.Forget? || a.LoseMark?
    ensures Inv(StepEdge(c, s, a))
  {
    match a
    case Arrive(r, t, app, now, events) =>
    case Forget(r) =>
      if r in s.requests && s.requests[r].Forgetting? && s.requests[r].keys != [] {
        var q := s.requests[r];
        UnmarkKeeps(s.(requests := s.requests[r := q.(keys := q.keys[1..])]), q.keys[0]);
      }
    case LoseMark(k) => UnmarkKeeps(s, k);
  }
}
