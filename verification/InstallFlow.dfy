/**
  Why an install postback always finds its attribution: the attribution worker publishes an install to
  a second stream only after its record transaction has ended, and the sender takes installs from
  there alone. The identity cache sits in front of the table and may be stale, lost or refilled late.
 */
module InstallFlow {
  import opened Common
  import opened Engine
  import S = Store

  /** `isInstall` is the canonical event name being one of the install events. */
  datatype Event = Event(id: nat, install: S.InstallKey, isInstall: bool)

  datatype Stage =
    | Open(event: Event)                          // record transaction in progress
    | Wrote(event: Event, outcome: S.Outcome)     // committed; cache write next
    | Ready(event: Event)                         // publish next

  datatype Handled = Handled(event: Event, found: Option<nat>)

  datatype State = State(
    store: S.State,
    cache: map<S.InstallKey, nat>,
    workers: map<nat, Stage>,
    raw: seq<Event>,
    attributed: seq<Event>,
    handled: seq<Handled>)

  const Start: State := State(S.Start, map[], map[], [], [], [])

  datatype Action =
    | Arrive(event: Event)
    | Begin(worker: nat, message: nat, decision: Decision)
    | Commit(worker: nat, id: nat)
    | WriteCache(worker: nat, alive: bool)
    | Publish(worker: nat)
    | Stop(worker: nat)
    | LoseCache(install: S.InstallKey)
    | Refill(install: S.InstallKey, row: nat)     // a lookup's write-back, however late
    | LinkUser(install: S.InstallKey, user: string, row: nat)   // mirror an entry under the user's id, however late
    | HandleRaw(message: nat)
    | HandleAttributed(message: nat)

  /** Entries for users and for devices share one namespace: a user's is the device id "user:" and the user id. */
  function AliasKey(app: nat, user: string): S.InstallKey { S.InstallKey(app, "user:" + user) }

  predicate AliasLike(k: S.InstallKey) { "user:" <= k.anonymousId }

  /** Cache first, table second. */
  function Lookup(s: State, k: S.InstallKey): Option<nat> {
    if k in s.cache then Some(s.cache[k]) else S.CurrentRow(s.store.table, k)
  }

  function Step(s: State, a: Action): State {
    match a
    case Arrive(e) => s.(raw := s.raw + [e])
    case Begin(w, i, d) =>
      if w !in s.workers && w !in s.store.open && i < |s.raw| && s.raw[i].isInstall then
        s.(store := S.Step(s.store, S.Begin(w, s.raw[i].install, d)), workers := s.workers[w := Open(s.raw[i])])
      else s
    case Commit(w, id) => if CanCommit(s, w, id) then Committed(s, w, id) else s
    case WriteCache(w, alive) =>
      if w in s.workers && s.workers[w].Wrote? then
        var o := s.workers[w].outcome;
        s.(workers := s.workers[w := Ready(s.workers[w].event)],
           cache := if o.Created? && alive then s.cache[s.workers[w].event.install := o.id] else s.cache)
      else s
    case Publish(w) =>
      if w in s.workers && s.workers[w].Ready? then
        s.(attributed := s.attributed + [s.workers[w].event], workers := s.workers - {w})
      else s
    case Stop(w) => s.(store := S.Step(s.store, S.Stop(w)), workers := s.workers - {w})
    case LoseCache(k) => s.(cache := s.cache - {k})
    case Refill(k, r) =>
      if r in s.store.table.rows && s.store.table.rows[r].install == k then s.(cache := s.cache[k := r]) else s
    case LinkUser(k, u, r) => if CanLink(s, k, r) then s.(cache := s.cache[AliasKey(k.app, u) := r]) else s
    case HandleRaw(i) =>
      // Installs on the raw stream are acknowledged without being handled.
      if i < |s.raw| && !s.raw[i].isInstall then
        s.(handled := s.handled + [Handled(s.raw[i], Lookup(s, s.raw[i].install))])
      else s
    case HandleAttributed(i) =>
      if i < |s.attributed| then
        s.(handled := s.handled + [Handled(s.attributed[i], Lookup(s, s.attributed[i].install))])
      else s
  }

  /** The entry mirrored was a row of the device's own install, unless the device's id is itself a user's. */
  predicate CanLink(s: State, k: S.InstallKey, r: nat) {
    r in s.store.table.rows && (!AliasLike(k) ==> s.store.table.rows[r].install == k)
  }

  predicate CanCommit(s: State, w: nat, id: nat) {
    w in s.workers && s.workers[w].Open? && w in s.store.open && id !in s.store.table.rows
  }

  /** An aborted transaction raises: the message stays unacknowledged and nothing is published. */
  function Committed(s: State, w: nat, id: nat): State
    requires CanCommit(s, w, id)
  {
    var outcome := S.Write(s.store.table, s.store.open[w], id).1;
    s.(store := S.Step(s.store, S.Finish(w, id)),
       workers := if outcome.Aborted? then s.workers - {w}
                  else s.workers[w := Wrote(s.workers[w].event, outcome)])
  }

  function Run(acts: seq<Action>): State {
    if acts == [] then Start else Step(Run(acts[..|acts| - 1]), acts[|acts| - 1])
  }

  // --- invariant ---

  ghost predicate Recorded(t: S.Table, k: S.InstallKey) { k in t.current && t.current[k] in t.rows }

  ghost predicate RowFor(t: S.Table, id: nat, k: S.InstallKey) { id in t.rows && t.rows[id].install == k }

  ghost predicate StageOk(s: State, w: nat) {
    w in s.workers ==>
      && s.workers[w].event.isInstall
      && (s.workers[w].Open? ==> w in s.store.open ==> s.store.open[w].install == s.workers[w].event.install)
      && (!s.workers[w].Open? ==> Recorded(s.store.table, s.workers[w].event.install))
      && (s.workers[w].Wrote? && s.workers[w].outcome.Created? ==>
            RowFor(s.store.table, s.workers[w].outcome.id, s.workers[w].event.install))
  }

  /** A row, and of this very install unless a user's entry could be meant. */
  ghost predicate RowMeant(t: S.Table, id: nat, k: S.InstallKey) {
    id in t.rows && (!AliasLike(k) ==> t.rows[id].install == k)
  }

  ghost predicate CacheOk(s: State, k: S.InstallKey) { k in s.cache ==> RowMeant(s.store.table, s.cache[k], k) }

  ghost predicate StreamOk(s: State, i: nat) {
    i < |s.attributed| ==> s.attributed[i].isInstall && Recorded(s.store.table, s.attributed[i].install)
  }

  ghost predicate HandledOk(s: State, i: nat) {
    i < |s.handled| && s.handled[i].event.isInstall ==>
      && Recorded(s.store.table, s.handled[i].event.install)
      && s.handled[i].found.Some? && RowMeant(s.store.table, s.handled[i].found.value, s.handled[i].event.install)
  }

  ghost predicate Inv(s: State) {
    && S.Inv(s.store)
    && (forall w {:trigger StageOk(s, w)} :: StageOk(s, w))
    && (forall k {:trigger CacheOk(s, k)} :: CacheOk(s, k))
    && (forall i {:trigger StreamOk(s, i)} :: StreamOk(s, i))
    && (forall i {:trigger HandledOk(s, i)} :: HandledOk(s, i))
  }

  /** Recording only adds: rows keep their install, and a recorded install stays recorded. */
  ghost predicate Grown(t: S.Table, t': S.Table) {
    && (forall id | id in t.rows :: id in t'.rows && t'.rows[id].install == t.rows[id].install)
    && (forall k | k in t.current :: k in t'.current)
  }

  lemma WriteGrows(t: S.Table, tx: S.Tx, id: nat)
    requires S.Valid(t) && S.TxOk(t, tx) && id !in t.rows
    ensures var (t', outcome) := S.Write(t, tx, id);
            && Grown(t, t')
            && (!outcome.Aborted? ==> tx.install in t'.current)
            && (outcome.Created? ==> outcome.id == id && RowFor(t', id, tx.install))
  {
    S.WriteKeepsValid(t, tx, id);
    var (t', outcome) := S.Write(t, tx, id);
    if outcome.Created? {
      forall a | a in t.rows ensures a in t'.rows && t'.rows[a].install == t.rows[a].install {
        S.ExtendedRow(t, t', id, tx.install, tx.decision, a);
      }
    } else if tx.seen.Some? {
      assert S.Placed(t, tx.seen.value);
    }
  }

  /** Everything but the worker that just moved survives a grown table. */
  lemma GrownKeeps(s: State, s': State, moved: nat)
    requires Inv(s) && Grown(s.store.table, s'.store.table) && S.Inv(s'.store)
    requires s'.cache == s.cache && s'.attributed == s.attributed && s'.handled == s.handled
    requires forall w | w != moved ::
               (w in s'.workers <==> w in s.workers) && (w in s.workers ==> s'.workers[w] == s.workers[w])
    requires forall w | w != moved && w in s'.store.open :: w in s.store.open && s'.store.open[w] == s.store.open[w]
    requires StageOk(s', moved)
    ensures Inv(s')
  {
    forall w ensures StageOk(s', w) {
      assert StageOk(s, w);
      if w in s'.workers { assert S.IndexedAt(s'.store.table, s'.workers[w].event.install); }
    }
    forall k ensures CacheOk(s', k) { assert CacheOk(s, k); }
    forall i: nat ensures StreamOk(s', i) {
      assert StreamOk(s, i);
      if i < |s.attributed| { assert S.IndexedAt(s'.store.table, s.attributed[i].install); }
    }
    forall i: nat ensures HandledOk(s', i) {
      assert HandledOk(s, i);
      if i < |s.handled| { assert S.IndexedAt(s'.store.table, s.handled[i].event.install); }
    }
  }

  lemma CommitKeeps(s: State, w: nat, id: nat)
    requires Inv(s) && CanCommit(s, w, id)
    ensures Inv(Committed(s, w, id))
  {
    var s' := Committed(s, w, id);
    var tx := s.store.open[w];
    assert StageOk(s, w);
    S.FinishKeeps(s.store, w, id);
    WriteGrows(s.store.table, tx, id);
    assert S.IndexedAt(s'.store.table, tx.install);
    GrownKeeps(s, s', w);
  }

  lemma StoreStepKeeps(s: State, a: Action)
    requires Inv(s) && (a.Begin? || a.Stop?)
    ensures Inv(Step(s, a))
  {
    var s' := Step(s, a);
    if a.Begin? && s' != s {
      S.BeginKeeps(s.store, a.worker, s.raw[a.message].install, a.decision);
      GrownKeeps(s, s', a.worker);
    } else if a.Stop? {
      assert S.Inv(s'.store);
      GrownKeeps(s, s', a.worker);
    }
  }

  lemma CacheStepKeeps(s: State, a: Action)
    requires Inv(s) && (a.WriteCache? || a.LoseCache? || a.Refill? || a.LinkUser?)
    ensures Inv(Step(s, a))
  {
    var s' := Step(s, a);
    if a.WriteCache? { assert StageOk(s, a.worker); }
    forall k ensures CacheOk(s', k) { assert CacheOk(s, k); }
    forall w ensures StageOk(s', w) { assert StageOk(s, w); }
    forall i: nat ensures StreamOk(s', i) { assert StreamOk(s, i); }
    forall i: nat ensures HandledOk(s', i) { assert HandledOk(s, i); }
  }

  lemma PublishKeeps(s: State, a: Action)
    requires Inv(s) && (a.Publish? || a.Arrive?)
    ensures Inv(Step(s, a))
  {
    var s' := Step(s, a);
    if a.Publish? { assert StageOk(s, a.worker); }
    forall k ensures CacheOk(s', k) { assert CacheOk(s, k); }
    forall w ensures StageOk(s', w) { assert StageOk(s, w); }
    forall i: nat ensures StreamOk(s', i) { assert StreamOk(s, i); }
    forall i: nat ensures HandledOk(s', i) { assert HandledOk(s, i); }
  }

  lemma HandleKeeps(s: State, a: Action)
    requires Inv(s) && (a.HandleRaw? || a.HandleAttributed?)
    ensures Inv(Step(s, a))
  {
    var s' := Step(s, a);
    forall k ensures CacheOk(s', k) { assert CacheOk(s, k); }
    forall w ensures StageOk(s', w) { assert StageOk(s, w); }
    forall i: nat ensures StreamOk(s', i) { assert StreamOk(s, i); }
    forall i: nat ensures HandledOk(s', i) {
      assert HandledOk(s, i);
      if i == |s.handled| && i < |s'.handled| && s'.handled[i].event.isInstall {
        var k := s.attributed[a.message].install;
        assert StreamOk(s, a.message) && CacheOk(s, k) && S.IndexedAt(s.store.table, k);
      }
    }
  }

  lemma {:induction false} RunKeeps(acts: seq<Action>)
    ensures Inv(Run(acts))
  {
    if acts != [] {
      var s, a := Run(acts[..|acts| - 1]), acts[|acts| - 1];
      RunKeeps(acts[..|acts| - 1]);
      if a.Begin? || a.Stop? { StoreStepKeeps(s, a); }
      else if a.Commit? { if CanCommit(s, a.worker, a.id) { CommitKeeps(s, a.worker, a.id); } }
      else if a.WriteCache? || a.LoseCache? || a.Refill? || a.LinkUser? { CacheStepKeeps(s, a); }
      else if a.Publish? || a.Arrive? { PublishKeeps(s, a); }
      else { HandleKeeps(s, a); }
    } else {
      S.RunKeeps([]);
    }
  }

  // --- theorems ---

  /** What one worker does with an install that nobody stops: record, cache, publish. */
  ghost function Carried(s: State, w: nat, i: nat, d: Decision, id: nat): State {
    Step(Step(Step(Step(s, Begin(w, i, d)), Commit(w, id)), WriteCache(w, true)), Publish(w))
  }

  /**
    An install that one worker takes through without interruption is recorded as the store records it and
    published, and a new row is what `lookup` then finds.
   */
  lemma UninterruptedIsPublished(s: State, w: nat, i: nat, d: Decision, id: nat)
    requires Inv(s) && w !in s.workers && w !in s.store.open && id !in s.store.table.rows
    requires i < |s.raw| && s.raw[i].isInstall
    ensures var e, s' := s.raw[i], Carried(s, w, i, d, id);
            var (table, outcome) := S.Record(s.store.table, e.install, d, id);
            && s'.attributed == s.attributed + [e] && s'.store.table == table && s'.workers == s.workers
            && (outcome.Created? ==> Lookup(s', e.install) == Some(id))
            && (!outcome.Created? ==> s'.cache == s.cache)
  {
    var e := s.raw[i];
    S.RecordKeepsValid(s.store.table, e.install, d, id);
    var s1 := Step(s, Begin(w, i, d));
    assert s1.store.open[w] == S.Tx(e.install, d, S.CurrentRow(s.store.table, e.install));
    var s2 := Step(s1, Commit(w, id));
    assert s2.workers == s.workers[w := Wrote(e, S.Record(s.store.table, e.install, d, id).1)];
    assert s.workers[w := Ready(e)] - {w} == s.workers;
  }

  /** Whatever it takes from either stream, the sender looks the install up in the cache and then in the table. */
  lemma SenderLooksUp(s: State, i: nat)
    ensures var s' := Step(s, HandleAttributed(i));
            i < |s.attributed| ==>
              var k := s.attributed[i].install;
              s'.handled == s.handled + [Handled(s.attributed[i], if k in s.cache then Some(s.cache[k])
                                                                  else if k in s.store.table.current
                                                                  then Some(s.store.table.current[k]) else None)]
    ensures var s' := Step(s, HandleRaw(i));
            i < |s.raw| && !s.raw[i].isInstall ==>
              var k := s.raw[i].install;
              s'.handled == s.handled + [Handled(s.raw[i], if k in s.cache then Some(s.cache[k])
                                                           else if k in s.store.table.current
                                                           then Some(s.store.table.current[k]) else None)]
  {
  }

  /**
    A user linked to an install finds its row under "user:" and the user id in the same app, and no other
    entry moves. Nothing happens for what is no row, or another install's, unless the device's id reads as a
    user's.
   */
  lemma LinkedUserFindsTheRow(s: State, k: S.InstallKey, user: string, row: nat)
    ensures var s' := Step(s, LinkUser(k, user, row));
            if row in s.store.table.rows && ("user:" <= k.anonymousId || s.store.table.rows[row].install == k) then
              && Lookup(s', S.InstallKey(k.app, "user:" + user)) == Some(row)
              && forall j | j != S.InstallKey(k.app, "user:" + user) :: Lookup(s', j) == Lookup(s, j)
            else s' == s
  {
  }

  /**
    In every run without erasure, an install the postback sender handles has been recorded, and
    `lookup` finds a row, whatever the cache lost or was late to learn: a row of that very install, unless
    the device's id reads as a user's entry.
   */
  lemma HandledInstallsAreAttributed(acts: seq<Action>, i: nat)
    requires i < |Run(acts).handled| && Run(acts).handled[i].event.isInstall
    ensures var s := Run(acts);
            var k := s.handled[i].event.install;
            && k in s.store.table.current && s.handled[i].found.Some? && s.handled[i].found.value in s.store.table.rows
            && (!AliasLike(k) ==> RowFor(s.store.table, s.handled[i].found.value, k))
  {
    RunKeeps(acts);
    assert HandledOk(Run(acts), i);
  }

  /** A device whose id reads as a user's entry is given the row of whichever install that user was linked from. */
  lemma AliasReadsAnotherInstall(s: State, k: S.InstallKey, user: string, row: nat)
    requires Inv(s) && RowFor(s.store.table, row, k) && k != AliasKey(k.app, user)
    ensures var s', alias := Step(s, LinkUser(k, user, row)), AliasKey(k.app, user);
            AliasLike(alias) && Lookup(s', alias) == Some(row) && !RowFor(s'.store.table, row, alias)
  {
  }

  // --- when the row found is the current one ---

  ghost predicate Stale(s: State, k: S.InstallKey) {
    k in s.cache && Some(s.cache[k]) != S.CurrentRow(s.store.table, k)
  }

  /** The worker has committed the current row and its cache write is still to come. */
  ghost predicate Owes(s: State, w: nat, k: S.InstallKey) {
    && w in s.workers && s.workers[w].Wrote? && s.workers[w].event.install == k
    && s.workers[w].outcome.Created? && Some(s.workers[w].outcome.id) == S.CurrentRow(s.store.table, k)
  }

  /** `lookup` finds the current row, or whoever made it current is about to say so. */
  ghost predicate Sound(s: State, k: S.InstallKey) { Stale(s, k) ==> exists w :: Owes(s, w, k) }

  /** The row the step writes into the entry. */
  ghost function Writes(s: State, a: Action, k: S.InstallKey): Option<nat> {
    if a.WriteCache? && a.alive && a.worker in s.workers && s.workers[a.worker].Wrote?
       && s.workers[a.worker].outcome.Created? && s.workers[a.worker].event.install == k
    then Some(s.workers[a.worker].outcome.id)
    else if a.Refill? && a.install == k && RowFor(s.store.table, a.row, k) then Some(a.row)
    else if a.LinkUser? && AliasKey(a.install.app, a.user) == k && CanLink(s, a.install, a.row) then Some(a.row)
    else None
  }

  ghost predicate Supersedes(s: State, a: Action, k: S.InstallKey) {
    && a.Commit? && CanCommit(s, a.worker, a.id) && s.store.open[a.worker].install == k
    && S.Write(s.store.table, s.store.open[a.worker], a.id).1.Created?
  }

  /** Exactly what each step makes of an entry. */
  lemma StaleAfterIff(s: State, a: Action, k: S.InstallKey)
    requires Inv(s)
    ensures Stale(Step(s, a), k)
            <==> if Writes(s, a, k).Some? then Writes(s, a, k) != S.CurrentRow(s.store.table, k)
                 else if a == LoseCache(k) then false
                 else if Supersedes(s, a, k) then k in s.cache
                 else Stale(s, k)
  {
    assert CacheOk(s, k);
    if a.Commit? && CanCommit(s, a.worker, a.id) { CommitCurrent(s, a.worker, a.id, k); }
  }

  lemma CommitCurrent(s: State, w: nat, id: nat, k: S.InstallKey)
    requires Inv(s) && CanCommit(s, w, id)
    ensures var t := s.store.table;
            S.CurrentRow(Committed(s, w, id).store.table, k)
            == if Supersedes(s, Commit(w, id), k) then Some(id) else S.CurrentRow(t, k)
  {
    S.WriteKeepsValid(s.store.table, s.store.open[w], id);
  }

  /** The step writes a superseded row with nobody left to correct it, or ends the one worker who would have. */
  ghost predicate Spoils(s: State, a: Action, k: S.InstallKey) {
    || (Writes(s, a, k).Some? && Writes(s, a, k) != S.CurrentRow(s.store.table, k) && forall w :: !Owes(s, w, k))
    || (Writes(s, a, k).None? && (a.Stop? || a.WriteCache?) && Stale(s, k)
        && forall w :: Owes(s, w, k) ==> w == a.worker)
  }

  lemma OwesAfter(s: State, a: Action, k: S.InstallKey, w: nat)
    requires Inv(s)
    ensures Owes(Step(s, a), w, k)
            <==> if Supersedes(s, a, k) then w == a.worker
                 else Owes(s, w, k) && !((a.Stop? || a.WriteCache?) && a.worker == w)
  {
    assert StageOk(s, w);
    if a.Commit? && CanCommit(s, a.worker, a.id) {
      CommitCurrent(s, a.worker, a.id, k);
      assert StageOk(s, a.worker);
      WriteGrows(s.store.table, s.store.open[a.worker], a.id);
    }
  }

  lemma StepSoundIff(s: State, a: Action, k: S.InstallKey)
    requires Inv(s) && Sound(s, k)
    ensures Sound(Step(s, a), k) <==> !Spoils(s, a, k)
  {
    StaleAfterIff(s, a, k);
    forall w ensures Owes(Step(s, a), w, k) <==> if Supersedes(s, a, k) then w == a.worker
                                                 else Owes(s, w, k) && !((a.Stop? || a.WriteCache?) && a.worker == w) {
      OwesAfter(s, a, k, w);
    }
    if Supersedes(s, a, k) { assert Owes(Step(s, a), a.worker, k); }
  }

  ghost predicate SoundAt(acts: seq<Action>, n: nat, k: S.InstallKey) { n <= |acts| ==> Sound(Run(acts[..n]), k) }

  ghost predicate SpoilsAt(acts: seq<Action>, n: nat, k: S.InstallKey) {
    n < |acts| && Spoils(Run(acts[..n]), acts[n], k)
  }

  lemma SoundNext(acts: seq<Action>, n: nat, k: S.InstallKey)
    requires n < |acts| && SoundAt(acts, n, k)
    ensures SoundAt(acts, n + 1, k) <==> !SpoilsAt(acts, n, k)
  {
    RunKeeps(acts[..n]);
    StepSoundIff(Run(acts[..n]), acts[n], k);
    assert acts[..n + 1][..n] == acts[..n] && acts[..n + 1][n] == acts[n];
  }

  lemma {:induction false} SoundUpTo(acts: seq<Action>, n: nat, k: S.InstallKey)
    requires n <= |acts| && forall i {:trigger SpoilsAt(acts, i, k)} :: !SpoilsAt(acts, i, k)
    ensures SoundAt(acts, n, k)
  {
    if n == 0 {
      assert acts[..0] == [];
    } else {
      SoundUpTo(acts, n - 1, k);
      SoundNext(acts, n - 1, k);
    }
  }

  /**
    Throughout a run `lookup` finds an install's current row, or the worker who made it current is about to
    cache it, exactly when no step writes a superseded row with nobody left to correct it, and no such worker
    goes away without writing while the entry is out of date.
   */
  lemma LookupIsCurrentIff(acts: seq<Action>, k: S.InstallKey)
    ensures (forall n {:trigger SoundAt(acts, n, k)} :: SoundAt(acts, n, k))
            <==> forall n {:trigger SpoilsAt(acts, n, k)} :: !SpoilsAt(acts, n, k)
  {
    if forall n {:trigger SpoilsAt(acts, n, k)} :: !SpoilsAt(acts, n, k) {
      forall n: nat ensures SoundAt(acts, n, k) { if n <= |acts| { SoundUpTo(acts, n, k); } }
    } else {
      var n: nat :| SpoilsAt(acts, n, k);
      if SoundAt(acts, n, k) {
        SoundNext(acts, n, k);
        assert !SoundAt(acts, n + 1, k);
      }
    }
  }

  lemma RunStep(acts: seq<Action>, a: Action)
    ensures Run(acts + [a]) == Step(Run(acts), a)
  {
    assert (acts + [a])[..|acts + [a]| - 1] == acts;
  }

  /**
    The row found need not be the current one: a slow worker's cache write lands after a better
    decision has superseded its row, and stays until the entry expires.
   */
  lemma LateCacheWriteIsStale(s: State, k: S.InstallKey, device: Decision, referrer: Decision)
    requires device.how == DeviceMatch && referrer.how == Referrer
    requires s.store.table == S.Inserted(S.Superseded(S.Inserted(S.EmptyTable, 10, k, device), 10, 11), 11, k, referrer)
    requires s.cache == map[k := 11]
    requires 0 in s.workers && s.workers[0].Wrote? && s.workers[0].outcome == S.Created(10)
             && s.workers[0].event.install == k
    ensures var s' := Step(s, WriteCache(0, true));
            Lookup(s', k) == Some(10) && S.CurrentRow(s'.store.table, k) == Some(11)
  {
  }

  /**
    ... and that state is reached: two installs of one device, the second decided and cached before the first
    is cached.
   */
  lemma StaleStateIsReachable(start: seq<Action>, k: S.InstallKey, device: Decision, referrer: Decision)
    returns (acts: seq<Action>)
    requires Run(start) == Start && device.how == DeviceMatch && referrer.how == Referrer
    ensures Lookup(Run(acts), k) == Some(10) && S.CurrentRow(Run(acts).store.table, k) == Some(11)
  {
    var e, e' := Event(0, k, true), Event(1, k, true);
    var a3 := FirstDecides(start, k, e, e', device);
    acts := SecondWorker(a3, k, e, e', device, referrer);
  }

  lemma FirstDecides(start: seq<Action>, k: S.InstallKey, e: Event, e': Event, device: Decision)
    returns (a3: seq<Action>)
    requires Run(start) == Start && e == Event(0, k, true) && e' == Event(1, k, true)
    ensures var s := Run(a3);
            && s.store.table == S.Inserted(S.EmptyTable, 10, k, device) && s.raw == [e, e'] && s.cache == map[]
            && s.workers == map[0 := Wrote(e, S.Created(10))] && s.store.open == map[]
  {
    var a0 := start + [Arrive(e)];
    var a1 := a0 + [Arrive(e')];
    var a2 := a1 + [Begin(0, 0, device)];
    a3 := a2 + [Commit(0, 10)];
    RunStep(start, Arrive(e));
    RunStep(a0, Arrive(e'));
    assert Run(a1) == Start.(raw := [e, e']);
    RunStep(a1, Begin(0, 0, device));
    assert Run(a2) == Start.(raw := [e, e'], workers := map[0 := Open(e)],
                             store := S.State(S.EmptyTable, map[0 := S.Tx(k, device, None)], []));
    RunStep(a2, Commit(0, 10));
  }

  /** The second worker reads the first's row and supersedes it before the first has cached anything. */
  lemma SecondDecides(a3: seq<Action>, k: S.InstallKey, e: Event, e': Event, device: Decision, referrer: Decision)
    returns (a5: seq<Action>)
    requires device.how == DeviceMatch && referrer.how == Referrer && e == Event(0, k, true) && e' == Event(1, k, true)
    requires var s := Run(a3);
             && s.store.table == S.Inserted(S.EmptyTable, 10, k, device) && s.raw == [e, e'] && s.cache == map[]
             && s.workers == map[0 := Wrote(e, S.Created(10))] && s.store.open == map[]
    ensures var s := Run(a5);
            && s.store.table
               == S.Inserted(S.Superseded(S.Inserted(S.EmptyTable, 10, k, device), 10, 11), 11, k, referrer)
            && s.cache == map[] && s.workers == map[0 := Wrote(e, S.Created(10)), 1 := Wrote(e', S.Created(11))]
  {
    var a4 := a3 + [Begin(1, 1, referrer)];
    a5 := a4 + [Commit(1, 11)];
    RunStep(a3, Begin(1, 1, referrer));
    var s := Run(a3);
    assert Run(a4) == s.(workers := map[0 := Wrote(e, S.Created(10)), 1 := Open(e')],
                         store := s.store.(open := map[1 := S.Tx(k, referrer, Some(10))]));
    RunStep(a4, Commit(1, 11));
  }

  lemma SecondWorker(a3: seq<Action>, k: S.InstallKey, e: Event, e': Event, device: Decision, referrer: Decision)
    returns (acts: seq<Action>)
    requires device.how == DeviceMatch && referrer.how == Referrer && e == Event(0, k, true) && e' == Event(1, k, true)
    requires var s := Run(a3);
             && s.store.table == S.Inserted(S.EmptyTable, 10, k, device) && s.raw == [e, e'] && s.cache == map[]
             && s.workers == map[0 := Wrote(e, S.Created(10))] && s.store.open == map[]
    ensures Lookup(Run(acts), k) == Some(10) && S.CurrentRow(Run(acts).store.table, k) == Some(11)
  {
    var a5 := SecondDecides(a3, k, e, e', device, referrer);
    var a6 := a5 + [WriteCache(1, true)];
    RunStep(a5, WriteCache(1, true));
    LateCacheWriteIsStale(Run(a6), k, device, referrer);
    RunStep(a6, WriteCache(0, true));
    acts := a6 + [WriteCache(0, true)];
  }
}
