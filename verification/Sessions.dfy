/**
  Sessions: the current session of a device is a key with a time to live, and its expiry is the
  session's end. Every id handed out is a fresh candidate, supplied by the caller here.
 */
module Sessions {
  import opened Common

  datatype Live = Live(id: nat, expiresAt: int)

  datatype Decision = Decision(id: nat, started: bool)

  /** What the key reads as at time `t`. */
  function At(k: Option<Live>, t: int): Option<Live> {
    if k.Some? && t < k.value.expiresAt then k else None
  }

  /** Pushing out the expiry of a key; of one that is gone, nothing. */
  function Extended(k: Option<Live>, v: int, timeout: nat): Option<Live> {
    if At(k, v).None? then k else Some(Live(k.value.id, v + timeout))
  }

  /**
    One event: set-if-absent at `t`; if a session was live, read it at `u` and push its expiry out at `v`.
    It may have expired before the read, which starts a new one, or after it, when nothing is pushed out.
   */
  function Resolved(k: Option<Live>, engaged: bool, candidate: nat, t: int, u: int, v: int,
                    timeout: nat): (Decision, Option<Live>) {
    if !engaged then
      (Decision(if At(k, t).Some? then k.value.id else candidate, false), k)
    else if At(k, t).None? then
      (Decision(candidate, true), Some(Live(candidate, t + timeout)))
    else if At(k, u).None? then
      (Decision(candidate, true), Some(Live(candidate, v + timeout)))
    else
      (Decision(k.value.id, false), Extended(k, v, timeout))
  }

  // --- one device over time ---

  /** An engagement, with the instants of its three commands; an event that does not engage; an explicit end. */
  datatype Op = Engage(t: int, u: int, v: int, candidate: nat) | Idle(t: int, candidate: nat) | End(t: int)

  function Handled(k: Option<Live>, op: Op, timeout: nat): (Decision, Option<Live>)
    requires !op.End?
  {
    if op.Engage? then Resolved(k, true, op.candidate, op.t, op.u, op.v, timeout)
    else Resolved(k, false, op.candidate, op.t, op.t, op.t, timeout)
  }

  predicate FreshIds(ops: seq<Op>) {
    forall i, j | 0 <= i < j < |ops| && ops[i].Engage? && ops[j].Engage? :: ops[i].candidate != ops[j].candidate
  }

  function Key(ops: seq<Op>, timeout: nat): Option<Live> {
    if ops == [] then None
    else
      var before, op := Key(ops[..|ops| - 1], timeout), ops[|ops| - 1];
      if op.End? then None else Handled(before, op, timeout).1
  }

  /** The session the `i`th operation's event is given. */
  function Session(ops: seq<Op>, i: nat, timeout: nat): nat
    requires i < |ops| && !ops[i].End?
  {
    Handled(Key(ops[..i], timeout), ops[i], timeout).0.id
  }

  /** `a` is the engagement just before position `n`. */
  predicate LastEngaged(ops: seq<Op>, a: nat, n: nat) {
    a < n <= |ops| && ops[a].Engage? && forall k | a < k < n :: !ops[k].Engage?
  }

  predicate Ended(ops: seq<Op>, a: nat, n: nat)
    requires n <= |ops|
  {
    exists k | a < k < n :: ops[k].End?
  }

  /** When the session of the `a`th engagement lapses, if nothing further happens to it. */
  function Lapses(ops: seq<Op>, a: nat, timeout: nat): int
    requires a < |ops| && ops[a].Engage?
  {
    Handled(Key(ops[..a], timeout), ops[a], timeout).1.value.expiresAt
  }

  /** After an engagement the key holds its session until that lapses or is ended. */
  lemma {:induction false} KeyAfter(ops: seq<Op>, a: nat, n: nat, timeout: nat)
    requires LastEngaged(ops, a, n)
    ensures Key(ops[..n], timeout)
            == if Ended(ops, a, n) then None else Some(Live(Session(ops, a, timeout), Lapses(ops, a, timeout)))
  {
    assert ops[..n][..n - 1] == ops[..n - 1] && ops[..n][n - 1] == ops[n - 1];
    if a + 1 < n { KeyAfter(ops, a, n - 1, timeout); }
  }

  /** The `b`th engagement finds the session of the `a`th alive at both its commands that look for it. */
  predicate InTime(ops: seq<Op>, a: nat, b: nat, timeout: nat)
    requires a < b < |ops| && ops[a].Engage? && ops[b].Engage?
  {
    ops[b].t < Lapses(ops, a, timeout) && ops[b].u < Lapses(ops, a, timeout)
  }

  /** Two consecutive engagements share a session iff the second is in time and nothing ended it between. */
  lemma ConsecutiveIff(ops: seq<Op>, a: nat, b: nat, timeout: nat)
    requires LastEngaged(ops, a, b) && b < |ops| && ops[b].Engage?
    ensures Session(ops, b, timeout)
            == if !Ended(ops, a, b) && InTime(ops, a, b, timeout) then Session(ops, a, timeout) else ops[b].candidate
  {
    KeyAfter(ops, a, b, timeout);
  }

  /**
    A session that an engagement starts lapses a timeout after the command that stored it. One that it
    joins lapses a timeout after the command that pushes it out, unless it lapsed just before that, when
    it stays lapsed.
   */
  lemma LapsesWhen(ops: seq<Op>, a: nat, b: nat, timeout: nat)
    requires LastEngaged(ops, a, b) && b < |ops| && ops[b].Engage?
    ensures var live, until := !Ended(ops, a, b), Lapses(ops, a, timeout);
            Lapses(ops, b, timeout)
            == if !live || ops[b].t >= until then ops[b].t + timeout
               else if ops[b].u < until <= ops[b].v then until
               else ops[b].v + timeout
  {
    KeyAfter(ops, a, b, timeout);
  }

  /** When every event's commands happen at one instant, in time means that the gap is below the timeout. */
  lemma {:induction false} InstantGap(ops: seq<Op>, a: nat, b: nat, timeout: nat)
    requires a < b < |ops| && ops[a].Engage? && ops[b].Engage?
    requires forall k | 0 <= k < |ops| && ops[k].Engage? :: ops[k].t == ops[k].u == ops[k].v
    ensures InTime(ops, a, b, timeout) <==> ops[b].t - ops[a].t < timeout
  {
  }

  /** Sessions carry the candidate of some engagement no later than their own. */
  lemma {:induction false} KeyIsACandidate(ops: seq<Op>, n: nat, timeout: nat)
    requires n <= |ops|
    ensures var k := Key(ops[..n], timeout);
            k.Some? ==> exists i | 0 <= i < n :: ops[i].Engage? && ops[i].candidate == k.value.id
  {
    if n > 0 {
      assert ops[..n][..n - 1] == ops[..n - 1] && ops[..n][n - 1] == ops[n - 1];
      KeyIsACandidate(ops, n - 1, timeout);
    }
  }

  lemma EarlierSessionsDiffer(ops: seq<Op>, i: nat, j: nat, timeout: nat)
    requires i < j < |ops| && ops[i].Engage? && ops[j].Engage? && FreshIds(ops)
    ensures Session(ops, i, timeout) != ops[j].candidate
  {
    KeyIsACandidate(ops, i, timeout);
  }

  /** Every engagement from `i` to `j` is in time for the one before it, and nothing ends the session. */
  ghost predicate Unbroken(ops: seq<Op>, i: nat, j: nat, timeout: nat)
    requires i <= j < |ops|
  {
    && !Ended(ops, i, j)
    && forall a: nat, b: nat | i <= a < b <= j && LastEngaged(ops, a, b) && ops[b].Engage? :: InTime(ops, a, b, timeout)
  }

  lemma LastEngagedExists(ops: seq<Op>, i: nat, n: nat) returns (a: nat)
    requires i < n <= |ops| && ops[i].Engage?
    ensures i <= a && LastEngaged(ops, a, n)
  {
    a := n - 1;
    while !ops[a].Engage?
      invariant i <= a < n && forall k | a < k < n :: !ops[k].Engage?
      decreases a
    {
      a := a - 1;
    }
  }

  lemma UnbrokenSplits(ops: seq<Op>, i: nat, a: nat, j: nat, timeout: nat)
    requires i <= a && LastEngaged(ops, a, j) && j < |ops| && ops[j].Engage?
    ensures Unbroken(ops, i, j, timeout)
            <==> Unbroken(ops, i, a, timeout) && !Ended(ops, a, j) && InTime(ops, a, j, timeout)
  {
    if Unbroken(ops, i, a, timeout) && !Ended(ops, a, j) && InTime(ops, a, j, timeout) {
      forall x: nat, y: nat | i <= x < y <= j && LastEngaged(ops, x, y) && ops[y].Engage?
        ensures InTime(ops, x, y, timeout)
      {
        assert y <= a || y == j;
        assert y == j ==> x == a;
      }
      assert !ops[a].End?;
    }
  }

  /**
    Two engagements of a device share a session exactly when every engagement after the first, up to the
    second, finds the session before it alive at its set and at its read, and none ended it in between.
   */
  lemma {:induction false} SharedSessionIff(ops: seq<Op>, i: nat, j: nat, timeout: nat)
    requires i < j < |ops| && ops[i].Engage? && ops[j].Engage? && FreshIds(ops)
    ensures Session(ops, i, timeout) == Session(ops, j, timeout) <==> Unbroken(ops, i, j, timeout)
    decreases j
  {
    var a := LastEngagedExists(ops, i, j);
    ConsecutiveIff(ops, a, j, timeout);
    EarlierSessionsDiffer(ops, i, j, timeout);
    UnbrokenSplits(ops, i, a, j, timeout);
    if i < a {
      SharedSessionIff(ops, i, a, timeout);
    } else {
      assert Unbroken(ops, i, i, timeout);
    }
  }

  /** No gap between consecutive engagements from `i` to `j` reaches the timeout. */
  ghost predicate GapsBelow(ops: seq<Op>, i: nat, j: nat, timeout: nat)
    requires j < |ops|
  {
    forall a: nat, b: nat | i <= a < b <= j && LastEngaged(ops, a, b) && ops[b].Engage? ::
      ops[b].t - ops[a].t < timeout
  }

  /**
    When every event's commands happen at one instant, two engagements share a session exactly when no gap
    between consecutive engagements from one to the other reaches the timeout and nothing ended it between.
   */
  lemma SharedByGapsIff(ops: seq<Op>, i: nat, j: nat, timeout: nat)
    requires i < j < |ops| && ops[i].Engage? && ops[j].Engage? && FreshIds(ops)
    requires forall k | 0 <= k < |ops| && ops[k].Engage? :: ops[k].t == ops[k].u == ops[k].v
    ensures Session(ops, i, timeout) == Session(ops, j, timeout)
            <==> !Ended(ops, i, j) && GapsBelow(ops, i, j, timeout)
  {
    SharedSessionIff(ops, i, j, timeout);
    forall a: nat, b: nat | i <= a < b <= j && LastEngaged(ops, a, b) && ops[b].Engage?
      ensures InTime(ops, a, b, timeout) <==> ops[b].t - ops[a].t < timeout
    {
      InstantGap(ops, a, b, timeout);
    }
  }

  /** A non-engagement event neither starts nor extends a session: dropping it changes no key thereafter. */
  lemma {:induction false} IdleIsInvisible(before: seq<Op>, idle: Op, rest: seq<Op>, timeout: nat)
    requires idle.Idle?
    ensures Key(before + [idle] + rest, timeout) == Key(before + rest, timeout)
  {
    var ops := before + [idle] + rest;
    if rest == [] {
      assert ops[..|ops| - 1] == before && before + rest == before;
    } else {
      var n := |rest| - 1;
      assert ops[..|ops| - 1] == before + [idle] + rest[..n];
      assert (before + rest)[..|before + rest| - 1] == before + rest[..n];
      IdleIsInvisible(before, idle, rest[..n], timeout);
    }
  }

  // --- the tracker ---

  function Get(keys: map<string, Live>, d: string): Option<Live> { if d in keys then Some(keys[d]) else None }

  /** The key of an engaged device once the whole batch has been resolved together. */
  function KeyAfterMany(k: Option<Live>, candidate: nat, t: int, v: int, timeout: nat): Option<Live> {
    if At(k, t).None? then Some(Live(candidate, t + timeout)) else Extended(k, v, timeout)
  }

  /** The two ways leave keys that read alike from then on, unless a session expired between the first two commands. */
  lemma ManyReadsAlikeIff(k: Option<Live>, candidate: nat, t: int, u: int, v: int, timeout: nat)
    requires t <= u <= v && timeout > 0
    ensures (forall w | w >= v :: At(KeyAfterMany(k, candidate, t, v, timeout), w)
                                  == At(Resolved(k, true, candidate, t, u, v, timeout).1, w))
            <==> !(At(k, t).Some? && At(k, u).None?)
  {
    if At(k, t).Some? && At(k, u).None? {
      assert At(KeyAfterMany(k, candidate, t, v, timeout), v)
             != At(Resolved(k, true, candidate, t, u, v, timeout).1, v);
    }
  }

  predicate NoRepeats(s: seq<string>) { forall i, j | 0 <= i < j < |s| :: s[i] != s[j] }

  function Adopted(k: Option<Live>, candidate: nat, u: int): Decision {
    if At(k, u).None? then Decision(candidate, true) else Decision(k.value.id, false)
  }

  class SessionTracker {
    const timeout: nat
    var keys: map<string, Live>

    constructor (timeout: nat)
      ensures this.timeout == timeout && keys == map[]
    {
      this.timeout, keys := timeout, map[];
    }

    method Resolve(d: string, engaged: bool, candidate: nat, t: int, u: int, v: int) returns (r: Decision)
      modifies this`keys
      ensures r == Resolved(Get(old(keys), d), engaged, candidate, t, u, v, timeout).0
      ensures Get(keys, d) == Resolved(Get(old(keys), d), engaged, candidate, t, u, v, timeout).1
      ensures forall e | e != d :: Get(keys, e) == Get(old(keys), e)
    {
      var existing := At(Get(keys, d), t);
      if !engaged {
        r := Decision(if existing.Some? then existing.value.id else candidate, false);
      } else if existing.None? {
        keys := keys[d := Live(candidate, t + timeout)];
        r := Decision(candidate, true);
      } else {
        existing := At(Get(keys, d), u);
        if existing.None? {
          keys := keys[d := Live(candidate, v + timeout)];
          r := Decision(candidate, true);
        } else {
          if At(Get(keys, d), v).Some? { keys := keys[d := Live(keys[d].id, v + timeout)]; }
          r := Decision(existing.value.id, false);
        }
      }
    }

    /** Close a session explicitly; reports which one, if any was live. */
    method Close(d: string, t: int) returns (closed: Option<nat>)
      modifies this`keys
      ensures closed == if At(Get(old(keys), d), t).Some? then Some(old(keys)[d].id) else None
      ensures At(Get(keys, d), t).None? && forall e | e != d :: Get(keys, e) == Get(old(keys), e)
    {
      var existing := At(Get(keys, d), t);
      if existing.None? { return None; }
      keys := keys - {d};
      closed := Some(existing.value.id);
    }

    /** First trip: set-if-absent for every engaged device; the losers already had a session. */
    method SetAbsent(engaged: seq<string>, candidates: map<string, nat>, t: int) returns (adopted: seq<string>)
      requires NoRepeats(engaged) && forall d | d in engaged :: d in candidates
      modifies this`keys
      ensures NoRepeats(adopted) && forall d :: d in adopted <==> d in engaged && At(Get(old(keys), d), t).Some?
      ensures forall d ::
                Get(keys, d) == if d in engaged && d !in adopted then Some(Live(candidates[d], t + timeout))
                                else Get(old(keys), d)
    {
      adopted := [];
      for i := 0 to |engaged|
        invariant NoRepeats(adopted)
        invariant forall d :: d in adopted <==> d in engaged[..i] && At(Get(old(keys), d), t).Some?
        invariant forall d ::
                    Get(keys, d) == if d in engaged[..i] && d !in adopted then Some(Live(candidates[d], t + timeout))
                                    else Get(old(keys), d)
      {
        var d := engaged[i];
        assert engaged[..i + 1] == engaged[..i] + [d] && d !in engaged[..i];
        if At(Get(keys, d), t).None? {
          keys := keys[d := Live(candidates[d], t + timeout)];
        } else {
          adopted := adopted + [d];
        }
      }
      assert engaged[..|engaged|] == engaged;
    }

    /** Second trip: read each loser and push its expiry out; extending a key that is gone does nothing. */
    method Adopt(adopted: seq<string>, candidates: map<string, nat>, u: int, v: int)
      returns (decisions: map<string, Decision>)
      requires NoRepeats(adopted) && forall d | d in adopted :: d in candidates
      modifies this`keys
      ensures forall d :: d in decisions <==> d in adopted
      ensures forall d | d in adopted :: decisions[d] == Adopted(Get(old(keys), d), candidates[d], u)
      ensures forall d ::
                Get(keys, d) == if d in adopted then Extended(Get(old(keys), d), v, timeout) else Get(old(keys), d)
    {
      decisions := map[];
      for i := 0 to |adopted|
        invariant forall d :: d in decisions <==> d in adopted[..i]
        invariant forall d | d in adopted[..i] :: decisions[d] == Adopted(Get(old(keys), d), candidates[d], u)
        invariant forall d ::
                    Get(keys, d) == if d in adopted[..i] then Extended(Get(old(keys), d), v, timeout)
                                    else Get(old(keys), d)
      {
        var d := adopted[i];
        assert adopted[..i + 1] == adopted[..i] + [d] && d !in adopted[..i];
        decisions := decisions[d := Adopted(Get(keys, d), candidates[d], u)];
        if At(Get(keys, d), v).Some? { keys := keys[d := Live(keys[d].id, v + timeout)]; }
      }
      assert adopted[..|adopted|] == adopted;
    }

    /** Third trip: read the idle devices; nothing is started or extended. */
    method ReadIdle(idle: seq<string>, candidates: map<string, nat>, w: int) returns (decisions: map<string, Decision>)
      requires forall d | d in idle :: d in candidates
      ensures forall d :: d in decisions <==> d in idle
      ensures forall d | d in idle :: decisions[d] == Resolved(Get(keys, d), false, candidates[d], w, w, w, timeout).0
    {
      decisions := map[];
      for i := 0 to |idle|
        invariant forall d :: d in decisions <==> d in idle[..i]
        invariant forall d | d in idle[..i] ::
                    decisions[d] == Resolved(Get(keys, d), false, candidates[d], w, w, w, timeout).0
      {
        var d := idle[i];
        assert idle[..i + 1] == idle[..i] + [d];
        var existing := At(Get(keys, d), w);
        decisions := decisions[d := Decision(if existing.Some? then existing.value.id else candidates[d], false)];
      }
      assert idle[..|idle|] == idle;
    }

    /**
      A whole batch, split on whether the event engages: set-if-absent for the engaged at `t`, read the
      losers at `u` and extend them at `v`, read the idle at `w`. Every device is given what `Resolve` on its own
      would give it.
     */
    method ResolveMany(engaged: seq<string>, idle: seq<string>, candidates: map<string, nat>, t: int, u: int, v: int,
                       w: int)
      returns (decisions: map<string, Decision>)
      requires NoRepeats(engaged) && forall d | d in engaged :: d !in idle
      requires forall d | d in engaged || d in idle :: d in candidates
      modifies this`keys
      ensures forall d :: d in decisions <==> d in engaged || d in idle
      ensures forall d | d in engaged ::
                decisions[d] == Resolved(Get(old(keys), d), true, candidates[d], t, u, v, timeout).0
      ensures forall d | d in idle ::
                decisions[d] == Resolved(Get(old(keys), d), false, candidates[d], w, w, w, timeout).0
      ensures forall d ::
                Get(keys, d) == if d in engaged then KeyAfterMany(Get(old(keys), d), candidates[d], t, v, timeout)
                                else Get(old(keys), d)
    {
      var adopted := SetAbsent(engaged, candidates, t);
      var started := map d | d in engaged && d !in adopted :: Decision(candidates[d], true);
      var joined := Adopt(adopted, candidates, u, v);
      var seen := ReadIdle(idle, candidates, w);
      decisions := started + joined + seen;
    }
  }
}
