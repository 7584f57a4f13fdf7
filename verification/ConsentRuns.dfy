/**
  Consent records over whole runs: recording reads the cached record, merges and writes it back, as two
  commands, so recordings of one device overlap each other and the endpoint that drops the record.
 */
module ConsentRuns {
  import opened Common
  import opened Consent

  /** A recording between its read and its write: what it says, what it read, and the step it read at. */
  datatype Pending = Pending(device: string, says: States, seen: States, at: nat)

  datatype Action =
    | Read(request: nat, device: string, says: States, now: int)
    | Write(request: nat, now: int)
    | Drop(device: string)
    | Stop(request: nat)

  datatype State = State(entries: map<string, Entry>, open: map<nat, Pending>)

  function Step(s: State, a: Action, n: nat): State {
    match a
    case Read(r, d, says, now) =>
      if r in s.open then s else s.(open := s.open[r := Pending(d, says, Current(s.entries, d, now), n)])
    case Write(r, now) =>
      if r !in s.open then s
      else
        var w := s.open[r];
        State(s.entries[w.device := Entry(w.seen + w.says, now + CACHE_TTL)], s.open - {r})
    case Drop(d) => s.(entries := s.entries - {d})
    case Stop(r) => s.(open := s.open - {r})
  }

  /** The state after the first `n` actions. */
  function After(acts: seq<Action>, n: nat): State
    requires n <= |acts|
  {
    if n == 0 then State(map[], map[]) else Step(After(acts, n - 1), acts[n - 1], n - 1)
  }

  function Answer(states: States, p: Purpose): Option<Mark> { if p in states then Some(states[p]) else None }

  /** What is known of a device's answer at time `t`, after `n` actions. */
  function Known(acts: seq<Action>, d: string, p: Purpose, n: nat, t: int): Option<Mark>
    requires n <= |acts|
  {
    Answer(Current(After(acts, n).entries, d, t), p)
  }

  /** The `w`th action writes the device's record. */
  predicate Lands(acts: seq<Action>, w: nat, d: string) {
    && w < |acts| && acts[w].Write? && acts[w].request in After(acts, w).open
    && After(acts, w).open[acts[w].request].device == d
  }

  /** The recording that lands there, which read earlier. */
  function Landing(acts: seq<Action>, w: nat, d: string): (l: Pending)
    requires Lands(acts, w, d)
    ensures l.at < w && acts[l.at].Read?
  {
    PendingWasRead(acts, w, acts[w].request);
    After(acts, w).open[acts[w].request]
  }

  predicate Touches(acts: seq<Action>, k: nat, d: string) {
    k < |acts| && (Lands(acts, k, d) || acts[k] == Drop(d))
  }

  /** `a` is the last action before position `n` that writes or drops the record. */
  ghost predicate LastTouch(acts: seq<Action>, d: string, a: nat, n: nat) {
    a < n <= |acts| && Touches(acts, a, d) && forall k | a < k < n :: !Touches(acts, k, d)
  }

  /** The word on the purpose that the `w`th action writes. */
  function WordOf(acts: seq<Action>, d: string, p: Purpose, w: nat): Option<Mark> {
    if Lands(acts, w, d) then Answer(Landing(acts, w, d).says, p) else None
  }

  // --- where a record comes from ---

  /** A recording in flight was opened by its read and holds what that read saw. */
  ghost predicate WasRead(acts: seq<Action>, n: nat, r: nat)
    requires n <= |acts|
  {
    r in After(acts, n).open ==>
      var w := After(acts, n).open[r];
      && w.at < n && acts[w.at].Read? && acts[w.at].device == w.device && acts[w.at].says == w.says
      && w.seen == Current(After(acts, w.at).entries, w.device, acts[w.at].now)
  }

  lemma {:induction false} PendingWasRead(acts: seq<Action>, n: nat, r: nat)
    requires n <= |acts|
    ensures WasRead(acts, n, r)
  {
    if n > 0 { PendingWasRead(acts, n - 1, r); }
  }

  lemma LandingWasRead(acts: seq<Action>, w: nat, d: string)
    requires Lands(acts, w, d)
    ensures var l := Landing(acts, w, d); l.seen == Current(After(acts, l.at).entries, d, acts[l.at].now)
  {
    PendingWasRead(acts, w, acts[w].request);
  }

  /** When the recording that lands at `w` read. */
  function ReadTime(acts: seq<Action>, w: nat, d: string): int
    requires Lands(acts, w, d)
  {
    acts[Landing(acts, w, d).at].now
  }

  lemma {:induction false} UntouchedSince(acts: seq<Action>, d: string, a: nat, n: nat)
    requires a <= n <= |acts| && forall k | a <= k < n :: !Touches(acts, k, d)
    ensures d in After(acts, n).entries <==> d in After(acts, a).entries
    ensures d in After(acts, n).entries ==> After(acts, n).entries[d] == After(acts, a).entries[d]
    decreases n - a
  {
    if a < n {
      UntouchedSince(acts, d, a, n - 1);
      assert !Touches(acts, n - 1, d);
    }
  }

  /** One action: what is known changes only where the record is written or dropped. */
  lemma KnownAfterTouch(acts: seq<Action>, d: string, p: Purpose, k: nat, t: int)
    requires Touches(acts, k, d)
    ensures Known(acts, d, p, k + 1, t)
            == if !Lands(acts, k, d) || t >= acts[k].now + 300 then None
               else if WordOf(acts, d, p, k).Some? then WordOf(acts, d, p, k)
               else Known(acts, d, p, Landing(acts, k, d).at, ReadTime(acts, k, d))
  {
    if Lands(acts, k, d) { LandingWasRead(acts, k, d); }
  }

  /**
    What is known comes from the last action that wrote or dropped the record: nothing after a drop or a
    lapse, the word written there if there is one, and otherwise what that recording had read.
   */
  lemma KnownFrom(acts: seq<Action>, d: string, p: Purpose, a: nat, n: nat, t: int)
    requires LastTouch(acts, d, a, n)
    ensures Known(acts, d, p, n, t) == Known(acts, d, p, a + 1, t)
  {
    UntouchedSince(acts, d, a + 1, n);
  }

  lemma NothingKnown(acts: seq<Action>, d: string, p: Purpose, n: nat, t: int)
    requires n <= |acts| && forall a :: !LastTouch(acts, d, a, n)
    ensures Known(acts, d, p, n, t) == None
  {
    NoTouchAtAll(acts, d, n);
    UntouchedSince(acts, d, 0, n);
  }

  lemma {:induction false} NoTouchAtAll(acts: seq<Action>, d: string, n: nat)
    requires n <= |acts| && forall a :: !LastTouch(acts, d, a, n)
    ensures forall k | 0 <= k < n :: !Touches(acts, k, d)
  {
    var k := n;
    while k > 0
      invariant 0 <= k <= n && forall j | k <= j < n :: !Touches(acts, j, d)
    {
      k := k - 1;
      assert !LastTouch(acts, d, k, n);
    }
  }

  // --- exactly which word is known, in any interleaving ---

  /**
    A chain of writes, each made by a recording that read the record the one before had left, while it was
    still alive. The first speaks on the purpose, the others do not, and the last is the record at `n`,
    alive at `t`.
   */
  ghost predicate Chain(acts: seq<Action>, d: string, p: Purpose, chain: seq<nat>, n: nat, t: int)
    decreases |chain|
  {
    && |chain| > 0
    && var w := chain[|chain| - 1];
       && LastTouch(acts, d, w, n) && Lands(acts, w, d) && t < acts[w].now + CACHE_TTL
       && if |chain| == 1 then WordOf(acts, d, p, w).Some?
          else && WordOf(acts, d, p, w).None?
               && Chain(acts, d, p, chain[..|chain| - 1], Landing(acts, w, d).at, ReadTime(acts, w, d))
  }

  /** The chain carries the word `m`. */
  ghost predicate Tells(acts: seq<Action>, d: string, p: Purpose, chain: seq<nat>, n: nat, t: int, m: Mark) {
    Chain(acts, d, p, chain, n, t) && WordOf(acts, d, p, chain[0]) == Some(m)
  }

  lemma {:induction false} ChainIsKnown(acts: seq<Action>, d: string, p: Purpose, chain: seq<nat>, n: nat, t: int)
    requires n <= |acts| && Chain(acts, d, p, chain, n, t)
    ensures Known(acts, d, p, n, t) == WordOf(acts, d, p, chain[0])
    decreases |chain|
  {
    var w := chain[|chain| - 1];
    KnownFrom(acts, d, p, w, n, t);
    KnownAfterTouch(acts, d, p, w, t);
    if |chain| > 1 {
      LandingWasRead(acts, w, d);
      ChainIsKnown(acts, d, p, chain[..|chain| - 1], Landing(acts, w, d).at, ReadTime(acts, w, d));
    }
  }

  lemma {:induction false} KnownHasChain(acts: seq<Action>, d: string, p: Purpose, n: nat, t: int)
    returns (chain: seq<nat>)
    requires n <= |acts| && Known(acts, d, p, n, t).Some?
    ensures Chain(acts, d, p, chain, n, t)
    decreases n
  {
    if forall a :: !LastTouch(acts, d, a, n) {
      NothingKnown(acts, d, p, n, t);
      assert false;
    }
    var w: nat :| LastTouch(acts, d, w, n);
    KnownFrom(acts, d, p, w, n, t);
    KnownAfterTouch(acts, d, p, w, t);
    if WordOf(acts, d, p, w).Some? {
      chain := [w];
    } else {
      LandingWasRead(acts, w, d);
      var before := KnownHasChain(acts, d, p, Landing(acts, w, d).at, ReadTime(acts, w, d));
      chain := before + [w];
      assert chain[..|chain| - 1] == before;
    }
  }

  /**
    In every run, however recordings and drops overlap: an answer is known exactly when a chain of writes
    leads from the one that gave it to the record now held.
   */
  lemma KnownIff(acts: seq<Action>, d: string, p: Purpose, n: nat, t: int, m: Mark)
    requires n <= |acts|
    ensures Known(acts, d, p, n, t) == Some(m) <==> exists chain :: Tells(acts, d, p, chain, n, t, m)
  {
    if Known(acts, d, p, n, t) == Some(m) {
      var chain := KnownHasChain(acts, d, p, n, t);
      ChainIsKnown(acts, d, p, chain, n, t);
      assert Tells(acts, d, p, chain, n, t, m);
    }
    if chain :| Tells(acts, d, p, chain, n, t, m) { ChainIsKnown(acts, d, p, chain, n, t); }
  }

  /** So attribution is refused exactly when a refusal reaches the record or, in strict mode, no grant does. */
  lemma RefusedIff(acts: seq<Action>, d: string, n: nat, t: int, mode: Mode)
    requires n <= |acts|
    ensures !Allows(Current(After(acts, n).entries, d, t), mode, Attribution)
            <==> (exists chain :: Tells(acts, d, Attribution, chain, n, t, Denied))
                 || (mode == Strict && !exists chain :: Tells(acts, d, Attribution, chain, n, t, Granted))
  {
    KnownIff(acts, d, Attribution, n, t, Denied);
    KnownIff(acts, d, Attribution, n, t, Granted);
  }

  // --- when a word survives what comes after it ---

  /** If the `b`th action touches the record, it is a write silent on the purpose that read after `i`. */
  ghost predicate Renews(acts: seq<Action>, d: string, p: Purpose, i: nat, b: nat) {
    Touches(acts, b, d) ==>
      Lands(acts, b, d) && WordOf(acts, d, p, b).None? && i < Landing(acts, b, d).at
  }

  /** The recording that lands at `b` read the record `a` left before it lapsed. */
  ghost predicate ReadAlive(acts: seq<Action>, d: string, a: nat, b: nat) {
    Lands(acts, a, d) && Lands(acts, b, d) && LastTouch(acts, d, a, Landing(acts, b, d).at) ==>
      ReadTime(acts, b, d) < acts[a].now + CACHE_TTL
  }

  /**
    A word survives any overlap of later recordings, as long as none of them read before it was written,
    none speaks on the purpose, the record is not dropped and no read comes too late.
   */
  lemma {:induction false} WordSurvives(acts: seq<Action>, d: string, p: Purpose, i: nat, n: nat, t: int)
    requires i < n <= |acts| && WordOf(acts, d, p, i).Some?
    requires forall b {:trigger Renews(acts, d, p, i, b)} | i < b < n :: Renews(acts, d, p, i, b)
    requires forall a, b {:trigger ReadAlive(acts, d, a, b)} | i <= a && i < b < n :: ReadAlive(acts, d, a, b)
    requires forall a | i <= a && Lands(acts, a, d) && LastTouch(acts, d, a, n) :: t < acts[a].now + CACHE_TTL
    ensures Known(acts, d, p, n, t) == WordOf(acts, d, p, i)
    decreases n
  {
    var a := TouchSince(acts, d, i, n);
    if a > i { assert Renews(acts, d, p, i, a); }
    KnownFrom(acts, d, p, a, n, t);
    KnownAfterTouch(acts, d, p, a, t);
    if a > i {
      LandingWasRead(acts, a, d);
      var m := Landing(acts, a, d).at;
      forall k | i <= k && Lands(acts, k, d) && LastTouch(acts, d, k, m)
        ensures ReadTime(acts, a, d) < acts[k].now + CACHE_TTL
      {
        assert ReadAlive(acts, d, k, a);
      }
      WordSurvives(acts, d, p, i, m, ReadTime(acts, a, d));
    }
  }

  lemma {:induction false} TouchSince(acts: seq<Action>, d: string, i: nat, n: nat) returns (a: nat)
    requires i < n <= |acts| && Touches(acts, i, d)
    ensures i <= a && LastTouch(acts, d, a, n)
  {
    a := n - 1;
    while !Touches(acts, a, d)
      decreases a
      invariant i <= a < n && forall k | a < k < n :: !Touches(acts, k, d)
    {
      a := a - 1;
    }
  }

  /** A recording that stops before its write leaves every record as it was, and is over. */
  lemma StoppedRecordsNothing(s: State, r: nat, n: nat)
    ensures var s' := Step(s, Stop(r), n);
            && s'.entries == s.entries && r !in s'.open
            && forall q | q != r :: (q in s'.open <==> q in s.open) && (q in s.open ==> s'.open[q] == s.open[q])
  {
  }

  // --- runs in which no recording is overtaken ---

  /** No other write or drop of the record falls between the `w`th write and its read. */
  ghost predicate Unraced(acts: seq<Action>, d: string, w: nat) {
    Lands(acts, w, d) ==> forall k | Landing(acts, w, d).at <= k < w :: !Touches(acts, k, d)
  }

  /** The `j`th action does not speak on the purpose, nor drop the record. */
  ghost predicate Silent(acts: seq<Action>, d: string, p: Purpose, j: nat) {
    Touches(acts, j, d) ==> Lands(acts, j, d) && WordOf(acts, d, p, j).None?
  }

  /** Between one write and the next one's read no lifetime passes. */
  ghost predicate Unlapsed(acts: seq<Action>, d: string, a: nat, b: nat) {
    Lands(acts, a, d) && Lands(acts, b, d) && LastTouch(acts, d, a, b) ==>
      ReadTime(acts, b, d) < acts[a].now + CACHE_TTL
  }

  ghost predicate UnlapsedAt(acts: seq<Action>, d: string, a: nat, n: nat, t: int) {
    Lands(acts, a, d) && LastTouch(acts, d, a, n) ==> t < acts[a].now + CACHE_TTL
  }

  /** The `i`th action's word still stands after `n` actions, at time `t`. */
  ghost predicate Stands(acts: seq<Action>, d: string, p: Purpose, i: nat, n: nat, t: int, m: Mark) {
    && i < n && WordOf(acts, d, p, i) == Some(m)
    && (forall j {:trigger Silent(acts, d, p, j)} | i < j < n :: Silent(acts, d, p, j))
    && (forall a, b {:trigger Unlapsed(acts, d, a, b)} | i <= a && 0 <= b < n :: Unlapsed(acts, d, a, b))
    && (forall a {:trigger UnlapsedAt(acts, d, a, n, t)} | i <= a :: UnlapsedAt(acts, d, a, n, t))
  }

  lemma StandsQuiet(acts: seq<Action>, d: string, p: Purpose, i: nat, k: nat, n: nat, t: int, m: Mark)
    requires n == k + 1 <= |acts| && !Touches(acts, k, d)
    ensures Stands(acts, d, p, i, n, t, m) <==> Stands(acts, d, p, i, k, t, m)
  {
    assert Silent(acts, d, p, k);
    forall a: nat ensures Unlapsed(acts, d, a, k) { }
    forall a: nat ensures UnlapsedAt(acts, d, a, n, t) <==> UnlapsedAt(acts, d, a, k, t) {
      assert LastTouch(acts, d, a, n) <==> LastTouch(acts, d, a, k);
    }
    if Stands(acts, d, p, i, k, t, m) {
      forall a: nat, b: nat | i <= a && b < n ensures Unlapsed(acts, d, a, b) { }
    }
  }

  lemma StandsHere(acts: seq<Action>, d: string, p: Purpose, i: nat, k: nat, n: nat, t: int, m: Mark)
    requires n == k + 1 && WordOf(acts, d, p, k).Some?
    ensures Stands(acts, d, p, i, n, t, m)
            <==> i == k && WordOf(acts, d, p, k) == Some(m) && t < acts[k].now + CACHE_TTL
  {
    assert LastTouch(acts, d, k, n) && !Silent(acts, d, p, k);
    if Stands(acts, d, p, i, n, t, m) {
      assert UnlapsedAt(acts, d, k, n, t);
    }
  }

  lemma StandsOn(acts: seq<Action>, d: string, p: Purpose, i: nat, k: nat, n: nat, t: int, m: Mark)
    requires n == k + 1 && Lands(acts, k, d) && WordOf(acts, d, p, k).None? && t < acts[k].now + CACHE_TTL
    ensures Stands(acts, d, p, i, n, t, m) <==> Stands(acts, d, p, i, k, ReadTime(acts, k, d), m)
  {
    var u := ReadTime(acts, k, d);
    assert Silent(acts, d, p, k) && Touches(acts, k, d);
    forall a: nat ensures UnlapsedAt(acts, d, a, n, t) {
      if a < k { assert !LastTouch(acts, d, a, n); }
    }
    forall a: nat ensures Unlapsed(acts, d, a, k) <==> UnlapsedAt(acts, d, a, k, u) { }
    if Stands(acts, d, p, i, k, u, m) {
      forall a: nat, b: nat | i <= a && b < n ensures Unlapsed(acts, d, a, b) {
        if b == k { assert UnlapsedAt(acts, d, a, k, u); }
      }
    }
    if Stands(acts, d, p, i, n, t, m) {
      forall a: nat | i <= a ensures UnlapsedAt(acts, d, a, k, u) { assert Unlapsed(acts, d, a, k); }
    }
  }

  lemma StandsNoMore(acts: seq<Action>, d: string, p: Purpose, i: nat, k: nat, n: nat, t: int, m: Mark)
    requires n == k + 1 && Touches(acts, k, d)
    requires !Lands(acts, k, d) || t >= acts[k].now + CACHE_TTL
    ensures !Stands(acts, d, p, i, n, t, m)
  {
    assert LastTouch(acts, d, k, n);
    if i < k && !Lands(acts, k, d) { assert !Silent(acts, d, p, k); }
    if i <= k && Lands(acts, k, d) { assert !UnlapsedAt(acts, d, k, n, t); }
  }

  /** The read of an unraced write saw what is still known when it lands. */
  lemma UnracedReads(acts: seq<Action>, d: string, p: Purpose, n: nat, t: int)
    requires Lands(acts, n, d) && Unraced(acts, d, n)
    ensures Landing(acts, n, d).at < n
    ensures Known(acts, d, p, Landing(acts, n, d).at, t) == Known(acts, d, p, n, t)
  {
    LandingWasRead(acts, n, d);
    UntouchedSince(acts, d, Landing(acts, n, d).at, n);
  }

  /**
    Where no recording of the device is overtaken: an answer is known exactly when some write gave it,
    nothing since spoke on the purpose or dropped the record, and no lifetime passed between one write and
    the next one's read, or since the last.
   */
  lemma {:induction false} StandsIff(acts: seq<Action>, d: string, p: Purpose, n: nat, t: int, m: Mark)
    requires n <= |acts| && forall w {:trigger Unraced(acts, d, w)} | 0 <= w < n :: Unraced(acts, d, w)
    ensures Known(acts, d, p, n, t) == Some(m) <==> exists i: nat :: Stands(acts, d, p, i, n, t, m)
    decreases n, 0
  {
    if n > 0 {
      var k := n - 1;
      if !Touches(acts, k, d) {
        UntouchedSince(acts, d, k, n);
        StandsIff(acts, d, p, k, t, m);
        forall i: nat ensures Stands(acts, d, p, i, n, t, m) <==> Stands(acts, d, p, i, k, t, m) {
          StandsQuiet(acts, d, p, i, k, n, t, m);
        }
      } else {
        StandsIffTouched(acts, d, p, k, n, t, m);
      }
    }
  }

  lemma {:induction false} StandsIffTouched(acts: seq<Action>, d: string, p: Purpose, k: nat, n: nat, t: int, m: Mark)
    requires n == k + 1 && Touches(acts, k, d)
    requires forall w {:trigger Unraced(acts, d, w)} | 0 <= w < n :: Unraced(acts, d, w)
    ensures Known(acts, d, p, n, t) == Some(m) <==> exists i: nat :: Stands(acts, d, p, i, n, t, m)
    decreases k, 1
  {
    KnownAfterTouch(acts, d, p, k, t);
    if !Lands(acts, k, d) || t >= acts[k].now + CACHE_TTL {
      forall i: nat ensures !Stands(acts, d, p, i, n, t, m) { StandsNoMore(acts, d, p, i, k, n, t, m); }
    } else if WordOf(acts, d, p, k).Some? {
      StandsHere(acts, d, p, k, k, n, t, m);
      forall i: nat ensures Stands(acts, d, p, i, n, t, m) ==> i == k { StandsHere(acts, d, p, i, k, n, t, m); }
    } else {
      var u := ReadTime(acts, k, d);
      assert Unraced(acts, d, k);
      UnracedReads(acts, d, p, k, u);
      StandsIff(acts, d, p, k, u, m);
      forall i: nat ensures Stands(acts, d, p, i, n, t, m) <==> Stands(acts, d, p, i, k, u, m) {
        StandsOn(acts, d, p, i, k, n, t, m);
      }
    }
  }

  // --- a batch on its own is a run of this kind ---

  /** One read and one write for each update of the batch. */
  function Recording(events: seq<Event>, r: nat, now: int): seq<Action> {
    if events == [] then []
    else
      var e := events[|events| - 1];
      Recording(events[..|events| - 1], r, now)
      + if IsUpdate(e) && Reported(e) != map[] then [Read(r, e.device, Reported(e), now), Write(r, now)] else []
  }

  lemma {:induction false} AfterPrefix(acts: seq<Action>, more: seq<Action>, n: nat)
    requires n <= |acts|
    ensures After(acts + more, n) == After(acts, n)
  {
    if n > 0 { AfterPrefix(acts, more, n - 1); }
  }

  /** Handled without interruption, a batch leaves what recording its updates in order leaves. */
  lemma {:induction false} BatchIsARun(acts: seq<Action>, events: seq<Event>, r: nat, now: int)
    requires r !in After(acts, |acts|).open
    ensures var run := acts + Recording(events, r, now);
            && After(run, |run|).entries == RecordedAll(After(acts, |acts|).entries, events, now)
            && After(run, |run|).open == After(acts, |acts|).open
  {
    if events == [] {
      assert acts + [] == acts;
    } else {
      var init, e := events[..|events| - 1], events[|events| - 1];
      BatchIsARun(acts, init, r, now);
      var run := acts + Recording(init, r, now);
      if IsUpdate(e) && Reported(e) != map[] {
        ReadThenWrite(run, r, e.device, Reported(e), now);
        assert acts + Recording(events, r, now) == run + [Read(r, e.device, Reported(e), now), Write(r, now)];
      } else {
        assert acts + Recording(events, r, now) == run;
      }
    }
  }

  lemma ReadThenWrite(acts: seq<Action>, r: nat, d: string, says: States, now: int)
    requires r !in After(acts, |acts|).open
    ensures var run, s := acts + [Read(r, d, says, now), Write(r, now)], After(acts, |acts|);
            && After(run, |run|).entries == s.entries[d := Entry(Current(s.entries, d, now) + says, now + CACHE_TTL)]
            && After(run, |run|).open == s.open
  {
    var n := |acts|;
    var run := acts + [Read(r, d, says, now), Write(r, now)];
    AfterPrefix(acts, [Read(r, d, says, now), Write(r, now)], n);
    assert After(run, n + 1) == Step(After(acts, n), Read(r, d, says, now), n);
    assert After(run, n + 2) == Step(After(run, n + 1), Write(r, now), n + 1);
  }

  // --- two runs in which the record is not what serial recording leaves ---

  /**
    A refusal is lost: a recording that says nothing of attribution reads before the refusal is written and
    writes after it.
   */
  lemma OverlapLosesARefusal(acts: seq<Action>, d: string)
    requires acts == [Read(0, d, map[Analytics := Granted], 0), Read(1, d, map[Attribution := Denied], 0),
                      Write(1, 0), Write(0, 0)]
    ensures !Allows(Current(After(acts, 3).entries, d, 0), Permissive, Attribution)
    ensures Allows(Current(After(acts, 4).entries, d, 0), Permissive, Attribution)
  {
    assert After(acts, 1) == Step(State(map[], map[]), acts[0], 0);
    assert After(acts, 2).entries == map[];
    assert After(acts, 2).open == map[0 := Pending(d, map[Analytics := Granted], map[], 0),
                                      1 := Pending(d, map[Attribution := Denied], map[], 1)];
    assert map[] + map[Attribution := Denied] == map[Attribution := Denied];
    assert After(acts, 3).entries == map[d := Entry(map[Attribution := Denied], CACHE_TTL)];
    assert map[] + map[Analytics := Granted] == map[Analytics := Granted];
    assert After(acts, 4).entries == map[d := Entry(map[Analytics := Granted], CACHE_TTL)];
  }

  /** A dropped grant comes back: the drop falls between a recording's read and its write. */
  lemma OverlapRevivesAGrant(acts: seq<Action>, d: string)
    requires acts == [Read(0, d, map[Attribution := Granted], 0), Write(0, 0),
                      Read(0, d, map[Analytics := Granted], 1), Drop(d), Write(0, 1)]
    ensures !Allows(Current(After(acts, 4).entries, d, 1), Strict, Attribution)
    ensures Allows(Current(After(acts, 5).entries, d, 1), Strict, Attribution)
  {
    assert After(acts, 1) == Step(State(map[], map[]), acts[0], 0);
    assert After(acts, 1).open == map[0 := Pending(d, map[Attribution := Granted], map[], 0)];
    assert map[] + map[Attribution := Granted] == map[Attribution := Granted];
    assert After(acts, 2).entries == map[d := Entry(map[Attribution := Granted], CACHE_TTL)];
    assert After(acts, 2).open == map[];
    assert After(acts, 3).open == map[0 := Pending(d, map[Analytics := Granted], map[Attribution := Granted], 2)];
    assert After(acts, 4).entries == map[];
  }
}
