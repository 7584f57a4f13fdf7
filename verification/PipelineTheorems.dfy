/** What the pipeline promises over whole runs. */
module PipelineTheorems {
  import opened Common
  import opened Pipeline
  import opened PipelineRuns
  import B = Buffer

  ghost function Rows(table: Table, app: nat, uuid: nat): set<RowKey> {
    set k | k in table && k.app == app && k.uuid == uuid
  }

  /** The arrival times at which some spelling of the id was let in. */
  ghost function Times(granted: seq<Stamp>, app: nat, uuid: nat): set<int> {
    set i | 0 <= i < |granted| && InScope(granted[i].key, app, uuid) :: granted[i].receivedAt
  }

  lemma {:induction false} TimesBounded(granted: seq<Stamp>, app: nat, uuid: nat)
    ensures |Times(granted, app, uuid)| <= Grants(granted, app, uuid)
  {
    if granted != [] {
      var init, last := granted[..|granted| - 1], granted[|granted| - 1];
      TimesBounded(init, app, uuid);
      assert Times(granted, app, uuid)
             == Times(init, app, uuid) + (if InScope(last.key, app, uuid) then {last.receivedAt} else {});
    }
  }

  /** Rows of one id differ in nothing but their arrival time. */
  lemma {:induction false} RowsInjectIntoTimes(rows: set<RowKey>, times: set<int>, app: nat, uuid: nat)
    requires forall k | k in rows :: k.app == app && k.uuid == uuid && k.receivedAt in times
    ensures |rows| <= |times|
  {
    if rows != {} {
      var k :| k in rows;
      RowsInjectIntoTimes(rows - {k}, times - {k.receivedAt}, app, uuid);
    }
  }

  /**
    In every run, with client retries, the same id twice in one batch, partial publishes, redelivery,
    crashes and two workers on one message: the rows of one event id are at most the marks of its
    spellings still standing plus the marks of its spellings that expired, were lost or were forgotten.
   */
  lemma RowsBounded(c: Config, acts: seq<Action>, app: nat, uuid: nat)
    ensures var s := Run(c, acts);
            |Rows(s.table, app, uuid)| <= |MarksIn(s.marks, app, uuid)| + Removals(s.removed, app, uuid)
  {
    RunKeeps(c, acts);
    var s := Run(c, acts);
    var rows, times := Rows(s.table, app, uuid), Times(s.granted, app, uuid);
    forall k | k in rows ensures k.receivedAt in times {
      assert Message(s.table[k]) in s.stream;
      assert Admissible(s.granted, s.table[k]);
      var i :| 0 <= i < |s.granted| && s.granted[i] == Stamp(s.table[k].key, k.receivedAt);
      assert InScope(s.granted[i].key, app, uuid);
    }
    RowsInjectIntoTimes(rows, times, app, uuid);
    TimesBounded(s.granted, app, uuid);
    assert Balanced(s.marks, s.granted, s.removed, app, uuid);
  }

  // --- one spelling per id ---

  /** Every request of the run that sends this id writes it the same way. */
  ghost predicate SpelledAlike(acts: seq<Action>, app: nat, uuid: nat, spelling: nat) {
    forall a | a in acts && a.Arrive? && a.app == app ::
      forall e | e in a.events && e.0.uuid == uuid :: e.0.spelling == spelling
  }

  ghost predicate MarksSpelled(s: State, app: nat, uuid: nat, spelling: nat) {
    && (forall k | k in s.marks && InScope(k, app, uuid) :: k.id.spelling == spelling)
    && (forall r | r in s.requests && s.requests[r].Marking? ::
          forall e | e in s.requests[r].events && InScope(e.key, app, uuid) :: e.key.id.spelling == spelling)
  }

  lemma EdgeSpelled(c: Config, s: State, a: Action, app: nat, uuid: nat, spelling: nat)
    requires MarksSpelled(s, app, uuid, spelling) && SpelledAlike([a], app, uuid, spelling)
    requires a.Arrive? || a.SetIfAbsent? || a.Append? || a.Forget? || a.LoseMark?
    ensures MarksSpelled(StepEdge(c, s, a), app, uuid, spelling)
  {
    if a.Arrive? && a.request !in s.requests {
      assert a in [a];
      var events := Stamped(a.app, a.now, a.events);
      forall e | e in events && InScope(e.key, app, uuid) ensures e.key.id.spelling == spelling {
        var i :| 0 <= i < |events| && events[i] == e;
        assert a.events[i] in a.events;
      }
    } else if a.SetIfAbsent? && a.request in s.requests && s.requests[a.request].Marking?
              && s.requests[a.request].next < |s.requests[a.request].events| {
      var q := s.requests[a.request];
      assert q.events[q.next] in q.events;
    }
  }

  lemma StepSpelled(c: Config, s: State, a: Action, app: nat, uuid: nat, spelling: nat)
    requires MarksSpelled(s, app, uuid, spelling) && SpelledAlike([a], app, uuid, spelling)
    ensures MarksSpelled(Step(c, s, a), app, uuid, spelling)
  {
    if a.Arrive? || a.SetIfAbsent? || a.Append? || a.Forget? || a.LoseMark? {
      EdgeSpelled(c, s, a, app, uuid, spelling);
    } else {
      var s' := Step(c, s, a);
      assert s'.marks == s.marks && forall r | r in s'.requests :: r in s.requests && s'.requests[r] == s.requests[r];
    }
  }

  lemma {:induction false} RunSpelled(c: Config, acts: seq<Action>, app: nat, uuid: nat, spelling: nat)
    requires SpelledAlike(acts, app, uuid, spelling)
    ensures MarksSpelled(Run(c, acts), app, uuid, spelling)
  {
    if acts != [] {
      var init := acts[..|acts| - 1];
      assert forall a :: a in init ==> a in acts;
      assert acts[|acts| - 1] in acts;
      RunSpelled(c, init, app, uuid, spelling);
      StepSpelled(c, Run(c, init), acts[|acts| - 1], app, uuid, spelling);
    }
  }

  /** With one spelling per id, an event counts once plus once for each mark of its id that went away. */
  lemma CountedOnce(c: Config, acts: seq<Action>, app: nat, uuid: nat, spelling: nat)
    requires SpelledAlike(acts, app, uuid, spelling)
    ensures var s := Run(c, acts); |Rows(s.table, app, uuid)| <= 1 + Removals(s.removed, app, uuid)
  {
    RowsBounded(c, acts, app, uuid);
    RunSpelled(c, acts, app, uuid, spelling);
    var marks := MarksIn(Run(c, acts).marks, app, uuid);
    var only := Key(app, EventId(uuid, spelling));
    forall k | k in marks ensures k == only {}
    assert marks <= {only};
    SubsetSize(marks, {only});
  }

  /** ... and exactly once, if no mark of it went away and its message was acknowledged without dead-lettering. */
  lemma CountedExactlyOnce(c: Config, acts: seq<Action>, app: nat, uuid: nat, spelling: nat, i: nat)
    requires SpelledAlike(acts, app, uuid, spelling)
    requires var s := Run(c, acts);
             && Removals(s.removed, app, uuid) == 0
             && i in s.acked && !DeadLettered(FactsOf(s), i)
             && i < |s.stream| && s.stream[i].Message? && InScope(s.stream[i].event.key, app, uuid)
    ensures |Rows(Run(c, acts).table, app, uuid)| == 1
  {
    CountedOnce(c, acts, app, uuid, spelling);
    RunKeeps(c, acts);
    var s := Run(c, acts);
    assert Kept(FactsOf(s), i);
    var k := RowKeyOf(s.stream[i].event);
    SubsetSize({k}, Rows(s.table, app, uuid));
  }

  /** A request for one event whose id is unmarked, on a process with room, queues it. */
  lemma OneEventQueued(c: Config, acts: seq<Action>, r: nat, t: nat, app: nat, now: int, id: EventId)
    requires var s := Run(c, acts);
             r !in s.requests && Key(app, id) !in s.marks && |TrackerAt(s, t).queue| < c.capacity
    ensures var s := Run(c, acts);
            var s' := Run(c, acts + [Arrive(r, t, app, now, [(id, 0)]), SetIfAbsent(r), Append(r)]);
            && s'.trackers
               == s.trackers[t := TrackerAt(s, t).(queue := TrackerAt(s, t).queue + [Event(Key(app, id), now, 0)])]
            && s' == s.(trackers := s'.trackers, marks := s.marks + {Key(app, id)},
                        requests := s'.requests, granted := s.granted + [Stamp(Key(app, id), now)])
            && s'.requests.Keys == s.requests.Keys + {r}
  {
    var e := Event(Key(app, id), now, 0);
    var arrive := Arrive(r, t, app, now, [(id, 0)]);
    var a1 := acts + [arrive];
    var a2 := a1 + [SetIfAbsent(r)];
    RunStep(c, acts, arrive);
    RunStep(c, a1, SetIfAbsent(r));
    RunStep(c, a2, Append(r));
    assert acts + [arrive, SetIfAbsent(r), Append(r)] == a2 + [Append(r)];
    assert Stamped(app, now, [(id, 0)]) == [e];
    ArriveMarks(c, Run(c, acts), r, t, app, now, id, e);
    AppendQueues(c, Run(c, a2), r, t, app, now, id, e);
  }

  lemma AppendQueues(c: Config, s: State, r: nat, t: nat, app: nat, now: int, id: EventId, e: Event)
    requires r in s.requests && s.requests[r] == Marking(t, app, now, [e], 1, {id}) && e.key.id == id
    requires |TrackerAt(s, t).queue| < c.capacity
    ensures var s' := StepEdge(c, s, Append(r));
            && s'.trackers == s.trackers[t := TrackerAt(s, t).(queue := TrackerAt(s, t).queue + [e])]
            && s' == s.(trackers := s'.trackers, requests := s'.requests)
            && s'.requests.Keys == s.requests.Keys
  {
    assert Accepted([e], {id}) == [e];
  }

  lemma ArriveMarks(c: Config, s: State, r: nat, t: nat, app: nat, now: int, id: EventId, e: Event)
    requires r !in s.requests && Key(app, id) !in s.marks && e == Event(Key(app, id), now, 0)
    requires Stamped(app, now, [(id, 0)]) == [e]
    ensures var s1 := StepEdge(c, s, Arrive(r, t, app, now, [(id, 0)]));
            StepEdge(c, s1, SetIfAbsent(r))
            == s.(requests := s.requests[r := Marking(t, app, now, [e], 1, {id})],
                  marks := s.marks + {Key(app, id)}, granted := s.granted + [Stamp(Key(app, id), now)])
  {
    var s1 := StepEdge(c, s, Arrive(r, t, app, now, [(id, 0)]));
    assert s1.requests[r] == Marking(t, app, now, [e], 0, {});
    assert {} + {id} == {id};
    assert s1.requests[r := Marking(t, app, now, [e], 1, {id})] == s.requests[r := Marking(t, app, now, [e], 1, {id})];
  }

  /** One event, on a process with nothing else to do, goes all the way to the stream. */
  lemma OneEventPublished(c: Config, acts: seq<Action>, r: nat, t: nat, app: nat, now: int, id: EventId)
    returns (all: seq<Action>)
    requires c.capacity >= 1 && c.flushSize >= 1
    requires var s := Run(c, acts);
             r !in s.requests && Key(app, id) !in s.marks && TrackerAt(s, t) == Tracker([], [], 0, true)
    ensures var s, s' := Run(c, acts), Run(c, all);
            && s'.stream == s.stream + [Message(Event(Key(app, id), now, 0))] && s'.marks == s.marks + {Key(app, id)}
            && s'.requests.Keys == s.requests.Keys + {r}
            && (forall u | u != t :: TrackerAt(s', u) == TrackerAt(s, u))
            && s' == s.(stream := s'.stream, marks := s'.marks, requests := s'.requests, trackers := s'.trackers,
                        granted := s'.granted)
  {
    var e := Event(Key(app, id), now, 0);
    var a1 := acts + [Arrive(r, t, app, now, [(id, 0)]), SetIfAbsent(r), Append(r)];
    OneEventQueued(c, acts, r, t, app, now, id);
    assert [] + [e] == [e];
    assert TrackerAt(Run(c, a1), t) == Tracker([e], [], 0, true);
    all := Shipped(c, a1, t, e);
  }

  lemma Shipped(c: Config, acts: seq<Action>, t: nat, e: Event) returns (all: seq<Action>)
    requires c.flushSize >= 1 && TrackerAt(Run(c, acts), t) == Tracker([e], [], 0, true)
    ensures var s, s' := Run(c, acts), Run(c, all);
            && s'.stream == s.stream + [Message(e)] && (forall u | u != t :: TrackerAt(s', u) == TrackerAt(s, u))
            && s' == s.(stream := s'.stream, trackers := s'.trackers)
  {
    var a1 := acts + [TakeChunk(t)];
    RunStep(c, acts, TakeChunk(t));
    assert TrackerAt(Run(c, a1), t) == Tracker([], [e], 0, true);
    all := a1 + [Xadd(t, true)];
    RunStep(c, a1, Xadd(t, true));
  }

  /** Two published events, read and committed, are rows. */
  lemma TwoEventsWritten(c: Config, acts: seq<Action>, e1: Event, e2: Event)
    requires var s := Run(c, acts);
             s.stream == [Message(e1), Message(e2)] && s.cursor == 0 && s.workers == map[]
    ensures var s, s' := Run(c, acts), Run(c, acts + [Read(0, 2)] + [Commit(0)]);
            s'.removed == s.removed && RowKeyOf(e1) in s'.table && RowKeyOf(e2) in s'.table
  {
    RunStep(c, acts, Read(0, 2));
    RunStep(c, acts + [Read(0, 2)], Commit(0));
    ReadBoth(Run(c, acts), e1, e2);
    WriteBoth(Run(c, acts + [Read(0, 2)]), e1, e2);
  }

  lemma ReadBoth(s: State, e1: Event, e2: Event)
    requires s.stream == [Message(e1), Message(e2)] && s.cursor == 0 && s.workers == map[]
    ensures var s' := StepWork(s, Read(0, 2));
            WorkerAt(s', 0).phase == Holding([0, 1]) && s'.removed == s.removed
  {
    assert Upto(0, 2) == [0, 1];
    assert [0, 1][1..] == [1] && Decodable(s.stream, [1]) == [1];
    assert Decodable(s.stream, [0, 1]) == [0] + [1];
  }

  lemma WriteBoth(s: State, e1: Event, e2: Event)
    requires s.stream == [Message(e1), Message(e2)] && WorkerAt(s, 0).phase == Holding([0, 1])
    ensures var s' := StepWork(s, Commit(0));
            RowKeyOf(e1) in s'.table && RowKeyOf(e2) in s'.table && s'.removed == s.removed
  {
    assert CanWrite(s, 0);
    assert Payloads(s.stream, [0, 1]) == [e1, e2];
    InsertAllGrows(s.table, [e1, e2]);
    assert e1 in [e1, e2] && e2 in [e1, e2];
  }

  lemma TwoSpellingsFrom(c: Config, start: seq<Action>, app: nat, uuid: nat, first: nat, second: nat, at: int,
                         later: int)
    returns (acts: seq<Action>)
    requires c.capacity >= 1 && c.flushSize >= 1 && first != second && Run(c, start) == Start
    ensures var s := Run(c, acts);
            s.removed == [] && RowKey(at, app, uuid) in s.table && RowKey(later, app, uuid) in s.table
  {
    var a1 := OneEventPublished(c, start, 1, 0, app, at, EventId(uuid, first));
    var a2 := OneEventPublished(c, a1, 2, 1, app, later, EventId(uuid, second));
    var e1, e2 := Event(Key(app, EventId(uuid, first)), at, 0), Event(Key(app, EventId(uuid, second)), later, 0);
    assert Run(c, a2).stream == [Message(e1), Message(e2)];
    TwoEventsWritten(c, a2, e1, e2);
    acts := a2 + [Read(0, 2)] + [Commit(0)];
  }

  /**
    The mark is on the text of the id and the row on the UUID: whatever the buffer's sizes, any two
    spellings of any id can become two rows with no mark lost, so the spelling condition is needed.
   */
  lemma TwoSpellingsCountTwice(c: Config, app: nat, uuid: nat, first: nat, second: nat, at: int, later: int)
    requires c.capacity >= 1 && c.flushSize >= 1 && first != second && at != later
    ensures exists acts :: Run(c, acts).removed == [] && |Rows(Run(c, acts).table, app, uuid)| >= 2
  {
    var acts := TwoSpellingsFrom(c, [], app, uuid, first, second, at, later);
    var rows := Rows(Run(c, acts).table, app, uuid);
    var two := {RowKey(at, app, uuid), RowKey(later, app, uuid)};
    assert two <= rows;
    SubsetSize(two, rows);
  }

  lemma ExpiredMarkFrom(c: Config, start: seq<Action>, app: nat, id: EventId, at: int, later: int)
    returns (acts: seq<Action>)
    requires c.capacity >= 1 && c.flushSize >= 1 && Run(c, start) == Start
    ensures var s := Run(c, acts);
            s.removed == [Key(app, id)] && RowKey(at, app, id.uuid) in s.table && RowKey(later, app, id.uuid) in s.table
  {
    var a1 := OneEventPublished(c, start, 1, 0, app, at, id);
    var a2 := a1 + [LoseMark(Key(app, id))];
    RunStep(c, a1, LoseMark(Key(app, id)));
    assert TrackerAt(Run(c, a2), 1) == TrackerAt(Run(c, a1), 1) == TrackerAt(Start, 1);
    var a3 := OneEventPublished(c, a2, 2, 1, app, later, id);
    var e1, e2 := Event(Key(app, id), at, 0), Event(Key(app, id), later, 0);
    assert Run(c, a3).stream == [Message(e1), Message(e2)];
    TwoEventsWritten(c, a3, e1, e2);
    acts := a3 + [Read(0, 2)] + [Commit(0)];
  }

  /** A mark that expires lets the same event in once more: one spelling, one mark gone, two rows. */
  lemma ExpiredMarkCountsTwice(c: Config, app: nat, id: EventId, at: int, later: int)
    requires c.capacity >= 1 && c.flushSize >= 1 && at != later
    ensures exists acts :: Run(c, acts).removed == [Key(app, id)] && |Rows(Run(c, acts).table, app, id.uuid)| >= 2
  {
    var acts := ExpiredMarkFrom(c, [], app, id, at, later);
    var rows := Rows(Run(c, acts).table, app, id.uuid);
    var two := {RowKey(at, app, id.uuid), RowKey(later, app, id.uuid)};
    assert two <= rows;
    SubsetSize(two, rows);
  }

  lemma RunStep(c: Config, acts: seq<Action>, a: Action)
    ensures Run(c, acts + [a]) == Step(c, Run(c, acts), a)
  {
    assert (acts + [a])[..|acts + [a]| - 1] == acts;
  }

  // --- no silent loss after publish ---

  /**
    In every interleaving of read, write, crash, takeover, dead-lettering and acknowledgement: an
    acknowledged message has its row or a copy in the dead-letter stream; every other message is still
    undelivered or pending; a dead-lettered message failed at least five writes; and the table and the
    dead-letter stream hold nothing that was not published.
   */
  lemma NothingSilentlyLost(c: Config, acts: seq<Action>)
    ensures var s := Run(c, acts);
            && (forall i | i in s.acked :: Stored(FactsOf(s), i) || DeadLettered(FactsOf(s), i))
            && (forall i: nat | i < |s.stream| && i !in s.acked :: s.cursor <= i || i in s.pending)
            && (forall d | d in s.dead :: d.message < |s.stream| && s.stream[d.message] == Message(d.event)
                                          && 5 <= Attempts(s.charged, d.message))
            && (forall k | k in s.table :: RowKeyOf(s.table[k]) == k && Message(s.table[k]) in s.stream)
  {
    RunKeeps(c, acts);
    var s := Run(c, acts);
    forall i | i in s.acked ensures Stored(FactsOf(s), i) || DeadLettered(FactsOf(s), i) {
      assert Kept(FactsOf(s), i);
    }
  }

  /** What is stored stays, and stays as it is, whatever happens next. */
  lemma {:induction false} RowsAreForever(c: Config, acts: seq<Action>, more: seq<Action>)
    ensures Extends(Run(c, acts).table, Run(c, acts + more).table)
  {
    if more == [] {
      assert acts + more == acts;
    } else {
      var init, last := more[..|more| - 1], more[|more| - 1];
      RowsAreForever(c, acts, init);
      assert acts + more == (acts + init) + [last];
      OneStepExtends(c, acts + init, last);
    }
  }

  ghost predicate Extends(t: Table, t': Table) { t.Keys <= t'.Keys && forall k | k in t :: t'[k] == t[k] }

  lemma OneStepExtends(c: Config, acts: seq<Action>, a: Action)
    ensures Extends(Run(c, acts).table, Run(c, acts + [a]).table)
  {
    RunStep(c, acts, a);
    TableGrows(c, Run(c, acts), a);
  }

  lemma TableGrows(c: Config, s: State, a: Action)
    ensures Extends(s.table, Step(c, s, a).table)
  {
    if (a.Commit? || a.CommitUnconfirmed?) && CanWrite(s, a.worker) {
      InsertAllGrows(s.table, Payloads(s.stream, WorkerAt(s, a.worker).phase.batch));
    }
  }

  // --- shedding and un-marking ---

  /** The entries the buffer pops when `accepted` does not fit. */
  function Shed(queue: seq<Event>, accepted: seq<Event>, capacity: nat): seq<Event> {
    (queue + accepted)[..B.ShedCount(queue, accepted, capacity)]
  }

  /** The entries whose marks the handler then deletes: `accepted[:dropped]`. */
  function Unmarked(queue: seq<Event>, accepted: seq<Event>, capacity: nat): seq<Event> {
    accepted[..Min(B.ShedCount(queue, accepted, capacity), |accepted|)]
  }

  ghost function KeySet(es: seq<Event>): set<Key> { set e | e in es :: e.key }

  /** The request's forgetting steps, taken without interruption. */
  ghost function ForgottenUpTo(c: Config, s: State, r: nat, n: nat): State {
    if n == 0 then s else Step(c, ForgottenUpTo(c, s, r, n - 1), Forget(r))
  }

  lemma {:induction false} ForgettingUnmarks(c: Config, s: State, r: nat, n: nat)
    requires r in s.requests && s.requests[r].Forgetting? && n <= |s.requests[r].keys|
    ensures var s', keys := ForgottenUpTo(c, s, r, n), s.requests[r].keys;
            && r in s'.requests && s'.requests[r] == s.requests[r].(keys := keys[n..])
            && s'.marks == s.marks - (set k | k in keys[..n]) && s'.trackers == s.trackers
  {
    if n > 0 {
      ForgettingUnmarks(c, s, r, n - 1);
      var keys := s.requests[r].keys;
      assert keys[..n] == keys[..n - 1] + [keys[n - 1]] && keys[n - 1..][1..] == keys[n..];
    }
  }

  /**
    A request that has marked its events appends the new ones and, with the queue over capacity, sheds from
    the front; then it takes back the marks of as many of its own first events as were shed.
   */
  lemma RequestShedsAndUnmarks(c: Config, s: State, r: nat)
    requires r in s.requests && s.requests[r].Marking? && s.requests[r].next == |s.requests[r].events|
    ensures var q := s.requests[r];
            var queue, accepted := TrackerAt(s, q.tracker).queue, Accepted(q.events, q.news);
            var shed := if |queue| + |accepted| <= c.capacity then 0 else |queue| + |accepted| - c.capacity;
            var s1 := Step(c, s, Append(r));
            && TrackerAt(s1, q.tracker).queue == (queue + accepted)[shed..]
            && r in s1.requests && s1.requests[r].Forgetting?
            && var s2 := ForgottenUpTo(c, s1, r, |s1.requests[r].keys|);
               && s2.marks == s.marks - KeySet(Unmarked(queue, accepted, c.capacity))
               && Shed(queue, accepted, c.capacity) == (queue + accepted)[..shed]
               && Unmarked(queue, accepted, c.capacity) == accepted[..if shed <= |accepted| then shed else |accepted|]
               && r !in Step(c, s2, Forget(r)).requests
  {
    var q := s.requests[r];
    var queue, accepted := TrackerAt(s, q.tracker).queue, Accepted(q.events, q.news);
    var s1 := Step(c, s, Append(r));
    var keys := s1.requests[r].keys;
    ForgettingUnmarks(c, s1, r, |keys|);
    KeysAsSet(Unmarked(queue, accepted, c.capacity));
    assert keys[..|keys|] == keys;
  }

  lemma KeysAsSet(es: seq<Event>)
    ensures (set k | k in KeysOf(es)) == KeySet(es)
  {
    forall e | e in es ensures e.key in KeysOf(es) {
      var i :| 0 <= i < |es| && es[i] == e;
      assert KeysOf(es)[i] == e.key;
    }
  }

  /**
    The handler means to un-mark what it could not enqueue. It does when everything fits or the queue was
    empty; otherwise, unless the batch repeats what is queued, it un-marks events that are queued and leaves
    shed ones marked.
   */
  lemma UnmarksWhatItShedIff(queue: seq<Event>, accepted: seq<Event>, capacity: nat)
    requires |queue| <= capacity
    ensures |queue| + |accepted| <= capacity || queue == [] ==>
              KeySet(Shed(queue, accepted, capacity)) == KeySet(Unmarked(queue, accepted, capacity))
    ensures KeySet(queue) !! KeySet(accepted)
            && KeySet(Shed(queue, accepted, capacity)) == KeySet(Unmarked(queue, accepted, capacity)) ==>
              |queue| + |accepted| <= capacity || queue == []
  {
    var shed := Shed(queue, accepted, capacity);
    if queue == [] {
      assert shed == Unmarked(queue, accepted, capacity);
    } else if |queue| + |accepted| > capacity {
      assert shed[0] == queue[0] && queue[0] in queue;
      assert queue[0].key in KeySet(shed) && queue[0].key in KeySet(queue);
      forall e | e in Unmarked(queue, accepted, capacity) ensures e.key in KeySet(accepted) {
        assert e in accepted;
      }
    } else {
      assert shed == [] && Unmarked(queue, accepted, capacity) == [];
    }
  }

  /** A full one-place buffer: the old event is shed but stays marked, the new one is queued but un-marked. */
  lemma SheddingUnmarksTheWrongEvent(a: Event, b: Event)
    requires a.key != b.key
    ensures B.Admitted([a], [b], 1) == [b]
    ensures Shed([a], [b], 1) == [a] && Unmarked([a], [b], 1) == [b]
  {
    assert [a] + [b] == [a, b];
  }
}
