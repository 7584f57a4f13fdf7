/**
  Engagements of one device whose commands interleave: set-if-absent, then for the loser a read, then either
  a push of the expiry or, if the read found nothing, a plain set.
 */
module SessionRaces {
  import opened Common
  import opened Sessions

  /** Lost the set-if-absent; then found nothing at step `at`, or found a session to join. */
  datatype Phase = Lost(candidate: nat) | Gone(candidate: nat, at: nat) | Joining

  datatype Move =
    | SetAbsent(request: nat, t: int, candidate: nat)
    | Look(request: nat, t: int)
    | Finish(request: nat, t: int)
    | Close(t: int)

  datatype State = State(key: Option<Live>, open: map<nat, Phase>)

  function Step(s: State, m: Move, n: nat, timeout: nat): State {
    match m
    case SetAbsent(r, t, candidate) =>
      if r in s.open then s
      else if At(s.key, t).None? then s.(key := Some(Live(candidate, t + timeout)))
      else s.(open := s.open[r := Lost(candidate)])
    case Look(r, t) =>
      if r !in s.open || !s.open[r].Lost? then s
      else s.(open := s.open[r := if At(s.key, t).None? then Gone(s.open[r].candidate, n) else Joining])
    case Finish(r, t) =>
      if r !in s.open || s.open[r].Lost? then s
      else if s.open[r].Gone? then State(Some(Live(s.open[r].candidate, t + timeout)), s.open - {r})
      else State(Extended(s.key, t, timeout), s.open - {r})
    case Close(_) => s.(key := None)
  }

  function After(moves: seq<Move>, n: nat, timeout: nat): State
    requires n <= |moves|
  {
    if n == 0 then State(None, map[]) else Step(After(moves, n - 1, timeout), moves[n - 1], n - 1, timeout)
  }

  predicate Ordered(moves: seq<Move>) { forall i, j | 0 <= i < j < |moves| :: moves[i].t <= moves[j].t }

  /** The `n`th move is the plain set of a request whose read found nothing. */
  predicate SetsLate(moves: seq<Move>, n: nat, timeout: nat) {
    && n < |moves| && moves[n].Finish? && moves[n].request in After(moves, n, timeout).open
    && After(moves, n, timeout).open[moves[n].request].Gone?
  }

  /** Where that request read. */
  function LookedAt(moves: seq<Move>, n: nat, timeout: nat): nat
    requires SetsLate(moves, n, timeout)
  {
    After(moves, n, timeout).open[moves[n].request].at
  }

  /** The `k`th move starts a session. */
  predicate Starts(moves: seq<Move>, k: nat, timeout: nat) {
    && k < |moves|
    && (SetsLate(moves, k, timeout)
        || (moves[k].SetAbsent? && moves[k].request !in After(moves, k, timeout).open
            && At(After(moves, k, timeout).key, moves[k].t).None?))
  }

  /** A request that found nothing did so at a step whose time the key had lapsed by. */
  lemma {:induction false} GoneWasGone(moves: seq<Move>, n: nat, r: nat, timeout: nat)
    requires n <= |moves|
    ensures var open := After(moves, n, timeout).open;
            r in open && open[r].Gone? ==>
              open[r].at < n && At(After(moves, open[r].at, timeout).key, moves[open[r].at].t).None?
              && moves[open[r].at].Look?
  {
    if n > 0 { GoneWasGone(moves, n - 1, r, timeout); }
  }

  /** A key that has lapsed stays so until a session is started. */
  lemma {:induction false} LapsedStays(moves: seq<Move>, a: nat, n: nat, t: int, u: int, timeout: nat)
    requires a <= n <= |moves| && At(After(moves, a, timeout).key, t).None? && t <= u
    requires forall k | a <= k < n :: t <= moves[k].t && !Starts(moves, k, timeout)
    ensures At(After(moves, n, timeout).key, u).None?
    decreases n
  {
    if a < n {
      LapsedStays(moves, a, n - 1, t, u, timeout);
      LapsedStays(moves, a, n - 1, t, moves[n - 1].t, timeout);
      assert !Starts(moves, n - 1, timeout);
    }
  }

  /** `k` is the last move before `n` to start a session, and none closed it. */
  ghost predicate Current(moves: seq<Move>, k: nat, n: nat, timeout: nat) {
    && k < n <= |moves| && Starts(moves, k, timeout)
    && forall j | k < j < n :: !Starts(moves, j, timeout) && !moves[j].Close?
  }

  lemma {:induction false} LiveWasStarted(moves: seq<Move>, a: nat, n: nat, t: int, u: int, timeout: nat)
    returns (k: nat)
    requires a <= n <= |moves| && At(After(moves, a, timeout).key, t).None? && t <= u
    requires forall j | a <= j < n :: t <= moves[j].t
    requires At(After(moves, n, timeout).key, u).Some?
    ensures a <= k && Current(moves, k, n, timeout)
  {
    if forall j | a <= j < n :: !Starts(moves, j, timeout) {
      LapsedStays(moves, a, n, t, u, timeout);
      assert false;
    }
    k := n - 1;
    while !Starts(moves, k, timeout)
      invariant a <= k < n && (forall j | k < j < n :: !Starts(moves, j, timeout) && !moves[j].Close?)
      invariant After(moves, k + 1, timeout).key.Some? && exists j | a <= j <= k :: Starts(moves, j, timeout)
      decreases k
    {
      k := k - 1;
    }
  }

  /** The `j`th move pushes the expiry out, if there is a live session then. */
  predicate Pushes(moves: seq<Move>, j: nat, timeout: nat) {
    && j < |moves| && moves[j].Finish? && moves[j].request in After(moves, j, timeout).open
    && After(moves, j, timeout).open[moves[j].request].Joining?
  }

  /** How long the session started at `k` lives, by the pushes since that came in time. */
  function Until(moves: seq<Move>, k: nat, n: nat, timeout: nat): int
    requires k < n <= |moves|
  {
    if n == k + 1 then moves[k].t + timeout
    else
      var until := Until(moves, k, n - 1, timeout);
      if Pushes(moves, n - 1, timeout) && moves[n - 1].t < until then moves[n - 1].t + timeout else until
  }

  lemma {:induction false} CurrentIsHeld(moves: seq<Move>, k: nat, n: nat, timeout: nat)
    requires Current(moves, k, n, timeout)
    ensures var key := After(moves, n, timeout).key; key.Some? && key.value.expiresAt == Until(moves, k, n, timeout)
    decreases n
  {
    if k + 1 < n {
      CurrentIsHeld(moves, k, n - 1, timeout);
      assert !Starts(moves, n - 1, timeout) && !moves[n - 1].Close?;
    }
  }

  /** Since the `a`th move another engagement started a session that is alive at `t`, the `n`th move's time. */
  ghost predicate Overtaken(moves: seq<Move>, a: nat, k: nat, n: nat, t: int, timeout: nat) {
    a < k && Current(moves, k, n, timeout) && t < Until(moves, k, n, timeout)
  }

  /**
    An engagement that starts a session replaces one that is still alive exactly when it sets late and,
    since it read, another engagement started a session that nothing closed and whose renewals have not
    left a timeout to pass. Without that overlap a session is only ever replaced once it has ended.
   */
  lemma ReplacesLiveIff(moves: seq<Move>, n: nat, timeout: nat)
    requires Ordered(moves) && Starts(moves, n, timeout)
    ensures At(After(moves, n, timeout).key, moves[n].t).Some?
            <==> SetsLate(moves, n, timeout)
                 && exists k: nat :: Overtaken(moves, LookedAt(moves, n, timeout), k, n, moves[n].t, timeout)
  {
    if At(After(moves, n, timeout).key, moves[n].t).Some? {
      GoneWasGone(moves, n, moves[n].request, timeout);
      var a := LookedAt(moves, n, timeout);
      var k := LiveWasStarted(moves, a, n, moves[a].t, moves[n].t, timeout);
      CurrentIsHeld(moves, k, n, timeout);
      assert Overtaken(moves, a, k, n, moves[n].t, timeout);
    }
    if SetsLate(moves, n, timeout) {
      if k: nat :| Overtaken(moves, LookedAt(moves, n, timeout), k, n, moves[n].t, timeout) {
        CurrentIsHeld(moves, k, n, timeout);
      }
    }
  }

  /** Such a run: the old session lapses between one request's two looks, and another starts one in between. */
  lemma OverlapStartsTwoSessions(moves: seq<Move>, timeout: nat)
    requires timeout > 0
    requires moves == [SetAbsent(0, 0, 10), SetAbsent(1, timeout - 1, 11), Look(1, timeout),
                       SetAbsent(2, timeout, 12), Finish(1, timeout)]
    ensures Ordered(moves)
    ensures At(After(moves, 4, timeout).key, timeout) == Some(Live(12, 2 * timeout))
    ensures At(After(moves, 5, timeout).key, timeout) == Some(Live(11, 2 * timeout))
  {
    assert After(moves, 1, timeout) == Step(State(None, map[]), moves[0], 0, timeout);
    assert After(moves, 2, timeout) == State(Some(Live(10, timeout)), map[1 := Lost(11)]);
    assert After(moves, 3, timeout) == State(Some(Live(10, timeout)), map[1 := Gone(11, 2)]);
    assert After(moves, 4, timeout) == State(Some(Live(12, 2 * timeout)), map[1 := Gone(11, 2)]);
  }
}
