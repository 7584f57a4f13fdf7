/**
  From the client's request to the stream: what a clean flush published, where every accepted event is, and
  that what is stored is what was sent.
 */
module Shipments {
  import opened Common
  import opened Pipeline
  import opened PipelineRuns
  import B = Buffer

  // --- the stream only grows ---

  lemma StreamGrows(c: Config, s: State, a: Action)
    ensures s.stream <= Step(c, s, a).stream
  {
  }

  lemma {:induction false} StreamGrowsOver(c: Config, acts: seq<Action>, n: nat)
    requires n <= |acts|
    ensures Run(c, acts[..n]).stream <= Run(c, acts).stream
  {
    if n < |acts| {
      var init, a := acts[..|acts| - 1], acts[|acts| - 1];
      assert init[..n] == acts[..n];
      StreamGrowsOver(c, init, n);
      StreamGrows(c, Run(c, init), a);
    } else {
      assert acts[..n] == acts;
    }
  }

  // --- a clean flush published its chunk ---

  /** The messages the process has added to the stream since it last took a chunk. */
  ghost function Added(c: Config, acts: seq<Action>, t: nat): seq<Message> {
    if acts == [] then []
    else
      var init, a := acts[..|acts| - 1], acts[|acts| - 1];
      var s, s' := Run(c, init), Run(c, acts);
      if a == TakeChunk(t) && TrackerAt(s, t).chunk == [] then []
      else if a.Xadd? && a.tracker == t then StreamGrows(c, s, a); Added(c, init, t) + s'.stream[|s.stream|..]
      else Added(c, init, t)
  }

  function Messages(events: seq<Event>): (r: seq<Message>)
    ensures |r| == |events| && forall i | 0 <= i < |r| :: r[i] == Message(events[i])
  {
    seq(|events|, i requires 0 <= i < |events| => Message(events[i]))
  }

  /** What an action leaves of a chunk, unless it takes a new one. */
  lemma ChunkStep(c: Config, s: State, a: Action, t: nat)
    requires !(a == TakeChunk(t) && TrackerAt(s, t).chunk == []) && TrackerAt(Step(c, s, a), t).chunk != []
    ensures var b, b' := TrackerAt(s, t), TrackerAt(Step(c, s, a), t);
            && b'.chunk == b.chunk
            && if a.Xadd? && a.tracker == t && b.sent < |b.chunk| then
                 b'.sent == b.sent + 1 && b'.clean == (b.clean && a.applied)
                 && Step(c, s, a).stream == s.stream + if a.applied then [Message(b.chunk[b.sent])] else []
               else b'.sent == b.sent && b'.clean == b.clean
                    && (a.Xadd? && a.tracker == t ==> Step(c, s, a).stream == s.stream)
  {
  }

  ghost predicate Consistent(b: Tracker, added: seq<Message>) {
    b.sent <= |b.chunk| && (b.chunk != [] && b.clean ==> added == Messages(b.chunk[..b.sent]))
  }

  lemma SentBounded(c: Config, s: State, a: Action, t: nat)
    requires TrackerAt(s, t).sent <= |TrackerAt(s, t).chunk|
    ensures TrackerAt(Step(c, s, a), t).sent <= |TrackerAt(Step(c, s, a), t).chunk|
  {
  }

  lemma OneMoreAdded(b: Tracker, b': Tracker, added: seq<Message>)
    requires Consistent(b, added) && b.sent < |b.chunk| && b.clean
    requires b'.chunk == b.chunk && b'.sent == b.sent + 1 && b'.clean
    ensures Consistent(b', added + [Message(b.chunk[b.sent])])
  {
    assert b.chunk[..b.sent + 1] == b.chunk[..b.sent] + [b.chunk[b.sent]];
  }

  lemma {:induction false} AddedSoFar(c: Config, acts: seq<Action>, t: nat)
    ensures Consistent(TrackerAt(Run(c, acts), t), Added(c, acts, t))
  {
    if acts != [] {
      var init, a := acts[..|acts| - 1], acts[|acts| - 1];
      AddedSoFar(c, init, t);
      AddedStep(c, Run(c, init), a, t, Added(c, init, t), Added(c, acts, t));
    }
  }

  lemma AddedStep(c: Config, s: State, a: Action, t: nat, added: seq<Message>, added': seq<Message>)
    requires Consistent(TrackerAt(s, t), added) && s.stream <= Step(c, s, a).stream
    requires added' == if a == TakeChunk(t) && TrackerAt(s, t).chunk == [] then []
                       else if a.Xadd? && a.tracker == t then added + Step(c, s, a).stream[|s.stream|..] else added
    ensures Consistent(TrackerAt(Step(c, s, a), t), added')
  {
    var b, b' := TrackerAt(s, t), TrackerAt(Step(c, s, a), t);
    SentBounded(c, s, a, t);
    if !(a == TakeChunk(t) && b.chunk == []) && b'.chunk != [] && b'.clean {
      ChunkStep(c, s, a, t);
      if a.Xadd? && a.tracker == t {
        if b.sent < |b.chunk| { OneMoreAdded(b, b', added); }
      }
    }
  }

  /**
    In every run: a flush that is taken to have succeeded, so that its chunk is let go, has added to the
    stream exactly that chunk, each event once and in order.
   */
  lemma CleanFlushPublished(c: Config, acts: seq<Action>, t: nat)
    requires TrackerAt(Run(c, acts), t).chunk != []
    requires TrackerAt(Run(c, acts + [FlushDone(t)]), t).chunk == []
    ensures var chunk := TrackerAt(Run(c, acts), t).chunk;
            && |Added(c, acts, t)| == |chunk|
            && forall i | 0 <= i < |chunk| :: Added(c, acts, t)[i] == Message(chunk[i])
  {
    assert (acts + [FlushDone(t)])[..|acts|] == acts;
    AddedSoFar(c, acts, t);
    var b := TrackerAt(Run(c, acts), t);
    assert b.chunk[..|b.chunk|] == b.chunk;
  }

  /** And what it added is on the stream to stay. */
  lemma {:induction false} AddedIsOnTheStream(c: Config, acts: seq<Action>, t: nat)
    ensures forall m | m in Added(c, acts, t) :: m in Run(c, acts).stream
  {
    if acts != [] {
      var init, a := acts[..|acts| - 1], acts[|acts| - 1];
      AddedIsOnTheStream(c, init, t);
      StreamGrows(c, Run(c, init), a);
    }
  }

  // --- each edge process is a shipping buffer ---

  /** The filter keeps the order of the batch: whatever is accepted of one part comes before what follows it. */
  lemma {:induction false} AcceptedConcat(a: seq<Event>, b: seq<Event>, news: set<EventId>)
    ensures Accepted(a + b, news) == Accepted(a, news) + Accepted(b, news)
  {
    if a == [] {
      assert a + b == b;
    } else {
      assert (a + b)[1..] == a[1..] + b;
      AcceptedConcat(a[1..], b, news);
    }
  }

  /** The events the request appends, if the action appends any to this process. */
  function Appends(s: State, a: Action, t: nat): Option<seq<Event>> {
    if a.Append? && a.request in s.requests && s.requests[a.request].Marking?
       && s.requests[a.request].next == |s.requests[a.request].events| && s.requests[a.request].tracker == t
    then Some(Accepted(s.requests[a.request].events, s.requests[a.request].news))
    else None
  }

  /** What the action is to the process's buffer. */
  function OpOf(s: State, a: Action, t: nat): Option<B.Action<Event>> {
    if Appends(s, a, t).Some? then Some(B.Append(Appends(s, a, t).value))
    else if a == TakeChunk(t) then Some(B.Take)
    else if a == FlushDone(t) && TrackerAt(s, t).sent == |TrackerAt(s, t).chunk| && TrackerAt(s, t).clean
    then Some(B.Ship)
    else if a == FlushFailed(t) then Some(B.Fail)
    else None
  }

  /** The buffer operations of the process since it last started. */
  function Ops(c: Config, acts: seq<Action>, t: nat): seq<B.Action<Event>> {
    if acts == [] then []
    else
      var init, a := acts[..|acts| - 1], acts[|acts| - 1];
      var op := OpOf(Run(c, init), a, t);
      if a == StopTracker(t) then []
      else Ops(c, init, t) + if op.Some? then [op.value] else []
  }

  function LedgerOf(c: Config, acts: seq<Action>, t: nat): B.Ledger<Event> {
    B.Run(Ops(c, acts, t), c.capacity, c.flushSize)
  }

  function Bodies(es: seq<B.Entry<Event>>): (r: seq<Event>)
    ensures |r| == |es| && forall i | 0 <= i < |r| :: r[i] == es[i].payload
  {
    seq(|es|, i requires 0 <= i < |es| => es[i].payload)
  }

  /** The process holds what the ledger says it holds. */
  ghost predicate Holds(b: Tracker, l: B.Ledger<Event>) { b.queue == Bodies(l.queue) && b.chunk == Bodies(l.chunk) }

  lemma OpHolds(c: Config, b: Tracker, b': Tracker, l: B.Ledger<Event>, op: B.Action<Event>)
    requires Holds(b, l)
    requires match op
             case Append(p) => b'.queue == B.Admitted(b.queue, p, c.capacity) && b'.chunk == b.chunk
             case Take =>
               if b.chunk != [] then b' == b
               else var n := Min(|b.queue|, c.flushSize); b'.chunk == b.queue[..n] && b'.queue == b.queue[n..]
             case Ship => b'.queue == b.queue && b'.chunk == []
             case Fail => b'.queue == B.Returned(b.chunk, b.queue, c.capacity) && b'.chunk == []
    ensures Holds(b', B.Step(l, op, c.capacity, c.flushSize))
  {
    if op.Append? {
      var added := B.Numbered(op.payloads, |l.appended|);
      assert Bodies(l.queue + added) == b.queue + op.payloads;
    } else if op.Fail? {
      assert Bodies(l.chunk + l.queue) == b.chunk + b.queue;
    }
  }

  lemma LedgerStep(c: Config, init: seq<Action>, a: Action, t: nat)
    ensures var op := OpOf(Run(c, init), a, t);
            LedgerOf(c, init + [a], t)
            == if a == StopTracker(t) then B.Empty()
               else if op.Some? then B.Step(LedgerOf(c, init, t), op.value, c.capacity, c.flushSize)
               else LedgerOf(c, init, t)
  {
    var op := OpOf(Run(c, init), a, t);
    assert (init + [a])[..|init|] == init;
    if op.Some? { assert (Ops(c, init, t) + [op.value])[..|Ops(c, init, t)|] == Ops(c, init, t); }
    else { assert Ops(c, init, t) + [] == Ops(c, init, t); }
  }

  lemma {:induction false} TrackerIsABuffer(c: Config, acts: seq<Action>, t: nat)
    ensures Holds(TrackerAt(Run(c, acts), t), LedgerOf(c, acts, t))
  {
    if acts != [] {
      var init, a := acts[..|acts| - 1], acts[|acts| - 1];
      TrackerIsABuffer(c, init, t);
      assert acts == init + [a];
      LedgerStep(c, init, a, t);
      var s, s' := Run(c, init), Run(c, acts);
      var op := OpOf(s, a, t);
      if a != StopTracker(t) {
        if op.Some? {
          OpHolds(c, TrackerAt(s, t), TrackerAt(s', t), LedgerOf(c, init, t), op.value);
        } else {
          NoOpHolds(c, s, a, t);
        }
      }
    }
  }

  lemma OthersLeaveTrackers(c: Config, s: State, a: Action)
    requires !a.Append? && !a.TakeChunk? && !a.Xadd? && !a.FlushDone? && !a.FlushFailed? && !a.StopTracker?
    ensures Step(c, s, a).trackers == s.trackers
  {
  }

  lemma NoOpHolds(c: Config, s: State, a: Action, t: nat)
    requires OpOf(s, a, t).None? && a != StopTracker(t)
    ensures var b, b' := TrackerAt(s, t), TrackerAt(Step(c, s, a), t); b'.queue == b.queue && b'.chunk == b.chunk
  {
    if a.Append? {
      assert StepEdge(c, s, a).trackers == s.trackers || s.requests[a.request].tracker != t;
    } else if a.TakeChunk? || a.Xadd? || a.FlushDone? || a.FlushFailed? || a.StopTracker? {
      if a.tracker != t { assert TrackerAt(StepShip(c, s, a), t) == TrackerAt(s, t); }
    } else {
      OthersLeaveTrackers(c, s, a);
    }
  }

  /** Everything the process accepted since it last started, in order. */
  function AcceptedBy(c: Config, acts: seq<Action>, t: nat): seq<Event> {
    if acts == [] then []
    else
      var init, a := acts[..|acts| - 1], acts[|acts| - 1];
      var more := Appends(Run(c, init), a, t);
      if a == StopTracker(t) then [] else AcceptedBy(c, init, t) + if more.Some? then more.value else []
  }

  lemma {:induction false} LedgerAppended(c: Config, acts: seq<Action>, t: nat)
    ensures LedgerOf(c, acts, t).appended == AcceptedBy(c, acts, t)
  {
    if acts != [] {
      var init, a := acts[..|acts| - 1], acts[|acts| - 1];
      LedgerAppended(c, init, t);
      assert acts == init + [a];
      LedgerStep(c, init, a, t);
    }
  }

  ghost predicate OnTheStream(es: seq<B.Entry<Event>>, stream: seq<Message>) {
    forall e | e in Bodies(es) :: Message(e) in stream
  }

  lemma BothOnTheStream(a: seq<B.Entry<Event>>, b: seq<B.Entry<Event>>, stream: seq<Message>, more: seq<Message>)
    requires OnTheStream(a, stream) && OnTheStream(b, stream) && stream <= more
    ensures OnTheStream(a + b, more)
  {
    assert Bodies(a + b) == Bodies(a) + Bodies(b);
  }

  /** What the ledger calls shipped is on the stream. */
  lemma {:induction false} ShippedIsOnTheStream(c: Config, acts: seq<Action>, t: nat)
    ensures OnTheStream(LedgerOf(c, acts, t).shipped, Run(c, acts).stream)
  {
    if acts != [] {
      var init, a := acts[..|acts| - 1], acts[|acts| - 1];
      ShippedIsOnTheStream(c, init, t);
      assert acts == init + [a];
      LedgerStep(c, init, a, t);
      var s, l := Run(c, init), LedgerOf(c, init, t);
      StreamGrows(c, s, a);
      if a != StopTracker(t) {
        var ships := OpOf(s, a, t) == Some(B.Ship);
        if ships { ChunkIsOnTheStream(c, init, t); }
        BothOnTheStream(l.shipped, if ships then l.chunk else [], s.stream, Run(c, acts).stream);
        assert l.shipped + [] == l.shipped;
      }
    }
  }

  lemma ChunkIsOnTheStream(c: Config, acts: seq<Action>, t: nat)
    requires var b := TrackerAt(Run(c, acts), t); b.sent == |b.chunk| && b.clean
    ensures OnTheStream(LedgerOf(c, acts, t).chunk, Run(c, acts).stream)
  {
    TrackerIsABuffer(c, acts, t);
    AddedSoFar(c, acts, t);
    AddedIsOnTheStream(c, acts, t);
    var b := TrackerAt(Run(c, acts), t);
    assert b.chunk[..|b.chunk|] == b.chunk;
    forall e | e in b.chunk ensures Message(e) in Run(c, acts).stream {
      var i :| 0 <= i < |b.chunk| && b.chunk[i] == e;
      assert Messages(b.chunk)[i] == Message(e);
    }
  }

  lemma TakeOut<T>(s: seq<T>, i: nat)
    requires i < |s|
    ensures multiset(s) == multiset(s[..i] + s[i + 1..]) + multiset{s[i]}
  {
    assert s == s[..i] + [s[i]] + s[i + 1..];
  }

  lemma BodiesWithout(es: seq<B.Entry<Event>>, i: nat)
    requires i < |es|
    ensures multiset(Bodies(es)) == multiset(Bodies(es[..i] + es[i + 1..])) + multiset{es[i].payload}
  {
    TakeOut(Bodies(es), i);
    assert Bodies(es[..i] + es[i + 1..]) == Bodies(es)[..i] + Bodies(es)[i + 1..];
  }

  lemma {:induction false} BodiesAsMultiset(es: seq<B.Entry<Event>>, ns: seq<B.Entry<Event>>)
    requires multiset(es) == multiset(ns)
    ensures multiset(Bodies(es)) == multiset(Bodies(ns))
    decreases |es|
  {
    if es == [] {
      assert |multiset(ns)| == 0;
    } else {
      assert es[0] in multiset(ns);
      var i :| 0 <= i < |ns| && ns[i] == es[0];
      TakeOut(es, 0);
      TakeOut(ns, i);
      BodiesWithout(es, 0);
      BodiesWithout(ns, i);
      SameLess(multiset(es[..0] + es[1..]), multiset(ns[..i] + ns[i + 1..]), es[0]);
      BodiesAsMultiset(es[..0] + es[1..], ns[..i] + ns[i + 1..]);
    }
  }

  lemma SameLess<T>(a: multiset<T>, b: multiset<T>, x: T)
    requires a + multiset{x} == b + multiset{x}
    ensures a == b
  {
    assert a == (a + multiset{x}) - multiset{x} && b == (b + multiset{x}) - multiset{x};
  }

  /**
    In every run, for every edge process: each event it accepted since it started is queued, in its chunk,
    shipped, shed or lost on a failed return, exactly once for each time it was accepted; and what is shipped
    is on the stream.
   */
  lemma AcceptedIsSomewhere(c: Config, acts: seq<Action>, t: nat)
    ensures var b, l := TrackerAt(Run(c, acts), t), LedgerOf(c, acts, t);
            && multiset(AcceptedBy(c, acts, t))
               == multiset(b.queue) + multiset(b.chunk)
                  + multiset(Bodies(l.shipped)) + multiset(Bodies(l.shed)) + multiset(Bodies(l.lost))
            && (forall e | e in Bodies(l.shipped) :: Message(e) in Run(c, acts).stream)
  {
    var l := LedgerOf(c, acts, t);
    TrackerIsABuffer(c, acts, t);
    LedgerAppended(c, acts, t);
    ShippedIsOnTheStream(c, acts, t);
    B.EveryScheduleConserves(Ops(c, acts, t), c.capacity, c.flushSize);
    LedgerAsBodies(l);
  }

  lemma LedgerAsBodies(l: B.Ledger<Event>)
    requires B.Everywhere(l) == multiset(B.Numbered(l.appended, 0))
    ensures multiset(l.appended)
            == multiset(Bodies(l.queue)) + multiset(Bodies(l.chunk))
               + multiset(Bodies(l.shipped)) + multiset(Bodies(l.shed)) + multiset(Bodies(l.lost))
  {
    var all := l.shipped + (l.chunk + l.queue) + (l.shed + l.lost);
    assert multiset(all) == B.Everywhere(l);
    BodiesAsMultiset(all, B.Numbered(l.appended, 0));
    assert Bodies(B.Numbered(l.appended, 0)) == l.appended;
    assert Bodies(all) == Bodies(l.shipped) + (Bodies(l.chunk) + Bodies(l.queue)) + (Bodies(l.shed) + Bodies(l.lost));
  }

  /** A process that stops takes its queue, its chunk and its open requests with it, and nothing else. */
  lemma StoppedProcessIsEmpty(c: Config, s: State, t: nat)
    ensures var s' := Step(c, s, StopTracker(t));
            && TrackerAt(s', t) == Tracker([], [], 0, true) && s'.stream == s.stream && s'.marks == s.marks
            && (forall u | u != t :: TrackerAt(s', u) == TrackerAt(s, u))
            && (forall r :: r in s'.requests <==> r in s.requests && s.requests[r].tracker != t)
            && (forall r | r in s'.requests :: s'.requests[r] == s.requests[r])
  {
  }

  // --- what is stored is what was sent ---

  /** Some request of the run brought this event: its id, its body, the app and the time of arrival. */
  ghost predicate WasSent(acts: seq<Action>, e: Event) {
    exists n | 0 <= n < |acts| ::
      && acts[n].Arrive? && acts[n].app == e.key.app && acts[n].now == e.receivedAt
      && (e.key.id, e.body) in acts[n].events
  }

  ghost predicate AllSent(acts: seq<Action>, es: seq<Event>) { forall e | e in es :: WasSent(acts, e) }

  lemma SentStays(acts: seq<Action>, a: Action, e: Event)
    requires WasSent(acts, e)
    ensures WasSent(acts + [a], e)
  {
    var n :| 0 <= n < |acts| && acts[n].Arrive? && acts[n].app == e.key.app && acts[n].now == e.receivedAt
             && (e.key.id, e.body) in acts[n].events;
    assert (acts + [a])[n] == acts[n];
  }

  ghost predicate RequestSent(acts: seq<Action>, s: State, r: nat) {
    r in s.requests && s.requests[r].Marking? ==> AllSent(acts, s.requests[r].events)
  }

  ghost predicate TrackerSent(acts: seq<Action>, s: State, t: nat) {
    AllSent(acts, TrackerAt(s, t).queue) && AllSent(acts, TrackerAt(s, t).chunk)
  }

  ghost predicate StreamSent(acts: seq<Action>, s: State) {
    forall m | m in s.stream && m.Message? :: WasSent(acts, m.event)
  }

  ghost predicate EverythingSent(acts: seq<Action>, s: State) {
    && (forall r {:trigger RequestSent(acts, s, r)} :: RequestSent(acts, s, r))
    && (forall t {:trigger TrackerSent(acts, s, t)} :: TrackerSent(acts, s, t))
    && StreamSent(acts, s)
  }

  lemma StillSent(acts: seq<Action>, a: Action, s: State)
    requires EverythingSent(acts, s)
    ensures EverythingSent(acts + [a], s)
  {
    forall e | WasSent(acts, e) ensures WasSent(acts + [a], e) { SentStays(acts, a, e); }
    forall r: nat ensures RequestSent(acts + [a], s, r) { assert RequestSent(acts, s, r); }
    forall t: nat ensures TrackerSent(acts + [a], s, t) { assert TrackerSent(acts, s, t); }
  }

  lemma ArriveSent(acts: seq<Action>, a: Action)
    requires acts != [] && acts[|acts| - 1] == a && a.Arrive?
    ensures AllSent(acts, Stamped(a.app, a.now, a.events))
  {
    var es := Stamped(a.app, a.now, a.events);
    forall e | e in es ensures WasSent(acts, e) {
      var i :| 0 <= i < |es| && es[i] == e;
      assert (e.key.id, e.body) == a.events[i];
    }
  }

  lemma RequestStepSent(c: Config, acts: seq<Action>, s: State, a: Action, r: nat)
    requires RequestSent(acts, s, r) && acts != [] && acts[|acts| - 1] == a
    ensures RequestSent(acts, Step(c, s, a), r)
  {
    if a.Arrive? { ArriveSent(acts, a); }
  }

  lemma TrackerStepSent(c: Config, acts: seq<Action>, s: State, a: Action, t: nat)
    requires TrackerSent(acts, s, t) && (a.Append? ==> RequestSent(acts, s, a.request))
    ensures TrackerSent(acts, Step(c, s, a), t)
  {
    if a == StopTracker(t) {
      assert TrackerAt(Step(c, s, a), t) == Tracker([], [], 0, true);
    } else if OpOf(s, a, t).None? {
      NoOpHolds(c, s, a, t);
    } else if Appends(s, a, t).Some? {
      AppendSent(c, acts, s, a, t);
    } else {
      ShipSent(c, acts, s, a, t);
    }
  }

  lemma AppendSent(c: Config, acts: seq<Action>, s: State, a: Action, t: nat)
    requires TrackerSent(acts, s, t) && Appends(s, a, t).Some? && RequestSent(acts, s, a.request)
    ensures TrackerSent(acts, Step(c, s, a), t)
  {
    var b, b' := TrackerAt(s, t), TrackerAt(Step(c, s, a), t);
    var accepted := Appends(s, a, t).value;
    assert b'.chunk == b.chunk && b'.queue == B.Admitted(b.queue, accepted, c.capacity);
    assert AllSent(acts, b.queue + accepted);
  }

  lemma ShipSent(c: Config, acts: seq<Action>, s: State, a: Action, t: nat)
    requires TrackerSent(acts, s, t) && (a == TakeChunk(t) || a == FlushDone(t) || a == FlushFailed(t))
    ensures TrackerSent(acts, Step(c, s, a), t)
  {
    var b := TrackerAt(s, t);
    assert AllSent(acts, b.chunk + b.queue);
  }

  lemma StreamStepSent(c: Config, acts: seq<Action>, s: State, a: Action)
    requires StreamSent(acts, s) && (a.Xadd? ==> TrackerSent(acts, s, a.tracker))
    ensures StreamSent(acts, Step(c, s, a))
  {
  }

  lemma StepSent(c: Config, acts: seq<Action>, s: State, a: Action)
    requires EverythingSent(acts, s) && acts != [] && acts[|acts| - 1] == a
    ensures EverythingSent(acts, Step(c, s, a))
  {
    var s' := Step(c, s, a);
    forall r: nat ensures RequestSent(acts, s', r) {
      assert RequestSent(acts, s, r);
      RequestStepSent(c, acts, s, a, r);
    }
    if a.Append? { assert RequestSent(acts, s, a.request); }
    forall t: nat ensures TrackerSent(acts, s', t) {
      assert TrackerSent(acts, s, t);
      TrackerStepSent(c, acts, s, a, t);
    }
    if a.Xadd? { assert TrackerSent(acts, s, a.tracker); }
    StreamStepSent(c, acts, s, a);
  }

  lemma {:induction false} RunSent(c: Config, acts: seq<Action>)
    ensures EverythingSent(acts, Run(c, acts))
  {
    if acts == [] {
      forall r: nat ensures RequestSent(acts, Start, r) { }
      forall t: nat ensures TrackerSent(acts, Start, t) { }
    } else {
      var init, a := acts[..|acts| - 1], acts[|acts| - 1];
      assert acts == init + [a];
      RunSent(c, init);
      StillSent(init, a, Run(c, init));
      StepSent(c, acts, Run(c, init), a);
    }
  }

  /** In every run, every row carries the id, body, app and arrival time of an event some request brought. */
  lemma RowsCarryWhatWasSent(c: Config, acts: seq<Action>, k: RowKey)
    requires k in Run(c, acts).table
    ensures var row := Run(c, acts).table[k];
            && k == RowKey(row.receivedAt, row.key.app, row.key.id.uuid)
            && exists n | 0 <= n < |acts| ::
                 && acts[n].Arrive? && acts[n].app == k.app && acts[n].now == k.receivedAt
                 && (row.key.id, row.body) in acts[n].events
  {
    RunKeeps(c, acts);
    RunSent(c, acts);
    var s := Run(c, acts);
    assert Message(s.table[k]) in s.stream;
    assert WasSent(acts, s.table[k]);
  }
}
