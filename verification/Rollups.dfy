/**
  Hourly event rollups: scanned by arrival, grouped by occurrence, recomputed and overwritten.
  Times are microseconds since the epoch.
 */
module Rollups {
  import opened Common

  const HOUR: int := 3_600_000_000
  const DAY: int := 24 * HOUR
  const MINUTE: int := 60_000_000
  const MAX_CLOCK_SKEW: int := DAY
  const TRAILING_WINDOW: int := 3 * HOUR
  const LATE_ARRIVAL_WINDOW: int := 8 * DAY

  datatype Row = Row(receivedAt: int, occurredAt: int, app: nat, name: string, platform: Option<nat>,
                     device: string, revenue: Option<int>)

  /** The rollup's primary key; an app belongs to one organisation, so that column adds nothing. */
  datatype Bucket = Bucket(app: nat, hour: int, name: string, platform: nat)

  datatype Totals = Totals(events: nat, devices: nat, revenue: int)

  function BucketOf(r: Row): Bucket {
    Bucket(r.app, r.occurredAt / HOUR, r.name, if r.platform.Some? then r.platform.value else 0)
  }

  // --- the clock-skew clamp at the edge ---

  /** Truncation toward zero, as `int()` does. */
  function Truncated(n: int, d: int): int
    requires d > 0
  {
    if n >= 0 then n / d else -(-n / d)
  }

  /** The event's time and the recorded skew in milliseconds; a wild clock is replaced by arrival. */
  function ParseTimestamp(client: Option<int>, now: int): (int, Option<int>) {
    if client.None? then (now, None)
    else
      var skew := client.value - now;
      var ms := Some(Truncated(skew, 1000));
      if skew > MAX_CLOCK_SKEW || -skew > MAX_CLOCK_SKEW then (now, ms) else (client.value, ms)
  }

  /**
    The clamp bounds the skew both ways. It keeps a client's own time exactly when that is within a day of
    arrival, and the recorded skew still tells the client's clock to the millisecond, never overstated.
   */
  lemma ClampKeepsTheClock(client: Option<int>, now: int)
    ensures var (occurred, ms) := ParseTimestamp(client, now);
            && now - MAX_CLOCK_SKEW <= occurred <= now + MAX_CLOCK_SKEW
            && (client.Some? ==>
                  && (occurred == client.value <==> now - MAX_CLOCK_SKEW <= client.value <= now + MAX_CLOCK_SKEW)
                  && ms.Some? && -1000 <= client.value - (now + 1000 * ms.value) <= 1000
                  && (client.value >= now ==> 0 <= 1000 * ms.value <= client.value - now)
                  && (client.value <= now ==> client.value - now <= 1000 * ms.value <= 0))
  {
    if client.Some? {
      var skew := client.value - now;
      if skew >= 0 {
        assert skew == 1000 * (skew / 1000) + skew % 1000;
      } else {
        assert -skew == 1000 * (-skew / 1000) + -skew % 1000;
      }
    }
  }

  // --- one refresh ---

  function Select(rows: seq<Row>, p: Row -> bool): (r: seq<Row>)
    ensures forall x :: x in r <==> x in rows && p(x)
  {
    if rows == [] then [] else (if p(rows[0]) then [rows[0]] else []) + Select(rows[1..], p)
  }

  function Revenue(rows: seq<Row>): int {
    if rows == [] then 0 else (if rows[0].revenue.Some? then rows[0].revenue.value else 0) + Revenue(rows[1..])
  }

  /** `count(*)`, `count(DISTINCT anonymous_id)`, `coalesce(sum(revenue_minor), 0)` */
  function Aggregate(rows: seq<Row>): Totals {
    Totals(|rows|, |set r | r in rows :: r.device|, Revenue(rows))
  }

  predicate InScan(r: Row, start: int, end: int) { start <= r.receivedAt < end && start <= r.occurredAt }

  /** The group the refresh sees for a bucket ... */
  function ScannedGroup(rows: seq<Row>, b: Bucket, start: int, end: int): seq<Row> {
    Select(rows, (r: Row) => InScan(r, start, end) && BucketOf(r) == b)
  }

  /** ... and the group a direct query over everything received before `end` would see. */
  function FullGroup(rows: seq<Row>, b: Bucket, end: int): seq<Row> {
    Select(rows, (r: Row) => r.receivedAt < end && BucketOf(r) == b)
  }

  type Rollup = map<Bucket, Totals>

  function Touched(rows: seq<Row>, start: int, end: int): set<Bucket> {
    set r | r in rows && InScan(r, start, end) :: BucketOf(r)
  }

  /** `INSERT ... SELECT ... GROUP BY ... ON CONFLICT DO UPDATE SET x = EXCLUDED.x` */
  function Refreshed(rollup: Rollup, rows: seq<Row>, start: int, end: int): Rollup {
    map b | b in rollup.Keys + Touched(rows, start, end) ::
      if b in Touched(rows, start, end) then Aggregate(ScannedGroup(rows, b, start, end)) else rollup[b]
  }

  function TrailingStart(now: int): int { (now - TRAILING_WINDOW) - (now - TRAILING_WINDOW) % HOUR }

  function LateStart(now: int): int { (now - LATE_ARRIVAL_WINDOW) - (now - LATE_ARRIVAL_WINDOW) % DAY }

  function EndOf(now: int): int { now + MINUTE }

  class RollupTable {
    var buckets: Rollup

    constructor ()
      ensures buckets == map[]
    {
      buckets := map[];
    }

    /**
      Every minute, over the last few hours. Leaves every earlier bucket alone, and makes exact every later
      one that is as far into the window as any row runs ahead of its arrival.
     */
    method RefreshTrailing(rows: seq<Row>, now: int)
      modifies this
      ensures buckets == Refreshed(old(buckets), rows, TrailingStart(now), EndOf(now))
      ensures forall b | HourStart(b) < TrailingStart(now) ::
                (b in buckets <==> b in old(buckets)) && (b in buckets ==> buckets[b] == old(buckets)[b])
      ensures forall skew: nat, b | SkewBounded(rows, skew) && TrailingStart(now) + skew <= HourStart(b)
                                    && FullGroup(rows, b, EndOf(now)) != [] :: Exact(buckets, rows, b, EndOf(now))
    {
      var start, end := TrailingStart(now), EndOf(now);
      WindowsAreAligned(now);
      forall b | HourStart(b) < start
        ensures (b in Refreshed(buckets, rows, start, end) <==> b in buckets)
                && (b in buckets ==> Refreshed(buckets, rows, start, end)[b] == buckets[b])
      {
        EarlierBucketsUntouched(buckets, rows, start, end, b);
      }
      forall skew: nat, b | SkewBounded(rows, skew) && start + skew <= HourStart(b) && FullGroup(rows, b, end) != []
        ensures Exact(Refreshed(buckets, rows, start, end), rows, b, end)
      {
        RefreshIsExact(buckets, rows, start, end, b, skew);
      }
      buckets := Refreshed(buckets, rows, TrailingStart(now), EndOf(now));
    }

    /** Nightly. Exact for every bucket from the second day of its window on, if rows obey the edge's clamp. */
    method RefreshLateArrivals(rows: seq<Row>, now: int)
      modifies this
      ensures buckets == Refreshed(old(buckets), rows, LateStart(now), EndOf(now))
      ensures SkewBounded(rows, MAX_CLOCK_SKEW) ==>
                forall b | now - LATE_ARRIVAL_WINDOW + DAY <= HourStart(b) && FullGroup(rows, b, EndOf(now)) != [] ::
                  Exact(buckets, rows, b, EndOf(now))
    {
      if SkewBounded(rows, MAX_CLOCK_SKEW) {
        forall b | now - LATE_ARRIVAL_WINDOW + DAY <= HourStart(b) && FullGroup(rows, b, EndOf(now)) != []
          ensures Exact(Refreshed(buckets, rows, LateStart(now), EndOf(now)), rows, b, EndOf(now))
        {
          LatePassIsExact(buckets, rows, now, b);
        }
      }
      buckets := Refreshed(buckets, rows, LateStart(now), EndOf(now));
    }
  }

  // --- exactness of one refresh ---

  predicate Aligned(start: int) { start % HOUR == 0 }

  function HourStart(b: Bucket): int { b.hour * HOUR }

  lemma WindowsAreAligned(now: int)
    ensures Aligned(TrailingStart(now)) && Aligned(LateStart(now))
    ensures TrailingStart(now) <= now - TRAILING_WINDOW < TrailingStart(now) + HOUR
    ensures LateStart(now) <= now - LATE_ARRIVAL_WINDOW < LateStart(now) + DAY
  {
    assert DAY == HOUR * 24;
    var d := (now - LATE_ARRIVAL_WINDOW) / DAY;
    assert LateStart(now) == d * DAY == (d * 24) * HOUR;
  }

  lemma {:induction false} SelectAgrees(rows: seq<Row>, p: Row -> bool, q: Row -> bool)
    requires forall r | r in rows :: p(r) == q(r)
    ensures Select(rows, p) == Select(rows, q)
  {
    if rows != [] {
      assert rows[0] in rows && forall r | r in rows[1..] :: r in rows;
      SelectAgrees(rows[1..], p, q);
    }
  }

  lemma {:induction false} SelectFewer(rows: seq<Row>, p: Row -> bool, q: Row -> bool)
    requires forall r | r in rows && p(r) :: q(r)
    ensures |Select(rows, p)| <= |Select(rows, q)|
    ensures (exists r | r in rows :: q(r) && !p(r)) ==> |Select(rows, p)| < |Select(rows, q)|
  {
    if rows != [] {
      assert rows[0] in rows && forall r | r in rows[1..] :: r in rows;
      SelectFewer(rows[1..], p, q);
      if exists r | r in rows :: q(r) && !p(r) {
        var r :| r in rows && q(r) && !p(r);
        assert r == rows[0] || r in rows[1..];
      }
    }
  }

  /** A row of a bucket occurred in the bucket's hour. */
  lemma BucketHour(r: Row)
    ensures HourStart(BucketOf(r)) <= r.occurredAt < HourStart(BucketOf(r)) + HOUR
  {
  }

  lemma AlignedFloor(b: Bucket, r: Row, start: int)
    requires Aligned(start) && BucketOf(r) == b
    ensures start <= r.occurredAt <==> start <= HourStart(b)
  {
    BucketHour(r);
    assert start == (start / HOUR) * HOUR;
    if start > HourStart(b) {
      assert start / HOUR >= b.hour + 1;
    }
  }

  /**
    For a bucket at or after an aligned start: the scan sees the whole bucket exactly when none of its
    rows arrived before the start.
   */
  lemma ScanSeesWholeBucketIff(rows: seq<Row>, b: Bucket, start: int, end: int)
    requires Aligned(start) && start <= HourStart(b)
    ensures Aggregate(ScannedGroup(rows, b, start, end)) == Aggregate(FullGroup(rows, b, end))
            <==> forall r | r in rows && BucketOf(r) == b && r.receivedAt < end :: start <= r.receivedAt
  {
    var p := (r: Row) => InScan(r, start, end) && BucketOf(r) == b;
    var q := (r: Row) => r.receivedAt < end && BucketOf(r) == b;
    forall r | r in rows && BucketOf(r) == b ensures p(r) <==> q(r) && start <= r.receivedAt {
      AlignedFloor(b, r, start);
    }
    if forall r | r in rows && BucketOf(r) == b && r.receivedAt < end :: start <= r.receivedAt {
      SelectAgrees(rows, p, q);
    } else {
      var r :| r in rows && BucketOf(r) == b && r.receivedAt < end && r.receivedAt < start;
      assert q(r) && !p(r);
      SelectFewer(rows, p, q);
    }
  }

  /** Rows keep the edge's skew bound in the forward direction. */
  ghost predicate SkewBounded(rows: seq<Row>, skew: int) {
    forall r | r in rows :: r.occurredAt <= r.receivedAt + skew
  }

  /** What it means for the rollup to hold a bucket's true totals (and nothing for a bucket without rows). */
  ghost predicate Exact(rollup: Rollup, rows: seq<Row>, b: Bucket, end: int) {
    if FullGroup(rows, b, end) == [] then b !in rollup
    else b in rollup && rollup[b] == Aggregate(FullGroup(rows, b, end))
  }

  /** The rollup has no bucket without rows. */
  ghost predicate Grounded(rollup: Rollup, rows: seq<Row>) {
    forall b | b in rollup :: exists r | r in rows :: BucketOf(r) == b
  }

  lemma TouchedIff(rows: seq<Row>, b: Bucket, start: int, end: int)
    ensures b in Touched(rows, start, end) <==> ScannedGroup(rows, b, start, end) != []
  {
    var g := ScannedGroup(rows, b, start, end);
    if g != [] { assert g[0] in g; }
    if b in Touched(rows, start, end) {
      var r :| r in rows && InScan(r, start, end) && BucketOf(r) == b;
      assert r in g;
    }
  }

  /**
    After a refresh with an aligned start, every bucket at least `skew` after it holds the totals of
    all rows received before the end, when no row occurred more than `skew` after its arrival.
   */
  lemma RefreshIsExact(rollup: Rollup, rows: seq<Row>, start: int, end: int, b: Bucket, skew: nat)
    requires Aligned(start) && SkewBounded(rows, skew) && start + skew <= HourStart(b)
    ensures FullGroup(rows, b, end) != [] ==> Exact(Refreshed(rollup, rows, start, end), rows, b, end)
    ensures FullGroup(rows, b, end) == [] ==>
              (b in Refreshed(rollup, rows, start, end) <==> b in rollup)
              && (b in rollup ==> Refreshed(rollup, rows, start, end)[b] == rollup[b])
  {
    var full, scanned := FullGroup(rows, b, end), ScannedGroup(rows, b, start, end);
    forall r | r in rows && BucketOf(r) == b ensures start <= r.receivedAt { BucketHour(r); }
    ScanSeesWholeBucketIff(rows, b, start, end);
    TouchedIff(rows, b, start, end);
    assert |scanned| == Aggregate(scanned).events == Aggregate(full).events == |full|;
  }

  /** The nightly pass: everything from the second day of its window on is exact, whatever clocks clients had. */
  lemma LatePassIsExact(rollup: Rollup, rows: seq<Row>, now: int, b: Bucket)
    requires SkewBounded(rows, MAX_CLOCK_SKEW) && now - LATE_ARRIVAL_WINDOW + DAY <= HourStart(b)
    requires FullGroup(rows, b, EndOf(now)) != []
    ensures Exact(Refreshed(rollup, rows, LateStart(now), EndOf(now)), rows, b, EndOf(now))
  {
    WindowsAreAligned(now);
    RefreshIsExact(rollup, rows, LateStart(now), EndOf(now), b, MAX_CLOCK_SKEW);
  }

  /** Running a refresh again changes nothing. */
  lemma RefreshTwice(rollup: Rollup, rows: seq<Row>, start: int, end: int)
    ensures Refreshed(Refreshed(rollup, rows, start, end), rows, start, end) == Refreshed(rollup, rows, start, end)
  {
  }

  /** No bucket before the start changes. */
  lemma EarlierBucketsUntouched(rollup: Rollup, rows: seq<Row>, start: int, end: int, b: Bucket)
    requires Aligned(start) && HourStart(b) < start
    ensures b in Refreshed(rollup, rows, start, end) <==> b in rollup
    ensures b in rollup ==> Refreshed(rollup, rows, start, end)[b] == rollup[b]
  {
    forall r | r in rows && BucketOf(r) == b ensures !InScan(r, start, end) { AlignedFloor(b, r, start); }
  }

  /** A pass reaches the bucket: it starts no later than the bucket's hour and some row arrived since. */
  ghost predicate Reaches(rows: seq<Row>, b: Bucket, start: int, end: int) {
    start <= HourStart(b) && exists r | r in rows && BucketOf(r) == b && r.receivedAt < end :: start <= r.receivedAt
  }

  /** Every row of the bucket arrived since the start. */
  ghost predicate Whole(rows: seq<Row>, b: Bucket, start: int, end: int) {
    forall r | r in rows && BucketOf(r) == b && r.receivedAt < end :: start <= r.receivedAt
  }

  /**
    After a pass the bucket is exact if and only if the pass reached it and every row of it arrived since
    the start, or the pass did not reach it and it was exact before.
   */
  lemma ExactAfterPassIff(rollup: Rollup, rows: seq<Row>, start: int, end: int, b: Bucket)
    requires Aligned(start)
    ensures Exact(Refreshed(rollup, rows, start, end), rows, b, end)
            <==> if Reaches(rows, b, start, end) then Whole(rows, b, start, end) else Exact(rollup, rows, b, end)
  {
    var full, scanned := FullGroup(rows, b, end), ScannedGroup(rows, b, start, end);
    TouchedIff(rows, b, start, end);
    if HourStart(b) < start {
      EarlierBucketsUntouched(rollup, rows, start, end, b);
    } else {
      ScanSeesWholeBucketIff(rows, b, start, end);
      forall r | r in rows && BucketOf(r) == b && r.receivedAt < end
        ensures r in scanned <==> start <= r.receivedAt
        ensures r in full
      {
        AlignedFloor(b, r, start);
      }
      if scanned != [] { assert scanned[0] in scanned && scanned[0] in full; }
    }
  }

  /**
    So a pass keeps an exact bucket exact if and only if it starts after the bucket's hour, or the rows of
    the bucket all arrived on the same side of the start.
   */
  lemma PassKeepsExactIff(rollup: Rollup, rows: seq<Row>, start: int, end: int, b: Bucket)
    requires Aligned(start) && Exact(rollup, rows, b, end)
    ensures Exact(Refreshed(rollup, rows, start, end), rows, b, end)
            <==> || HourStart(b) < start
                 || (forall r | r in rows && BucketOf(r) == b && r.receivedAt < end :: start <= r.receivedAt)
                 || (forall r | r in rows && BucketOf(r) == b && r.receivedAt < end :: r.receivedAt < start)
  {
    ExactAfterPassIff(rollup, rows, start, end, b);
  }

  // --- whole runs: arrivals and passes in any order ---

  datatype Action =
    | Arrive(now: int, client: Option<int>, app: nat, name: string, platform: Option<nat>, device: string,
             revenue: Option<int>)
    | Trailing(now: int)
    | Late(now: int)

  datatype State = State(rows: seq<Row>, rollup: Rollup)

  function Arrived(a: Action): Row
    requires a.Arrive?
  {
    Row(a.now, ParseTimestamp(a.client, a.now).0, a.app, a.name, a.platform, a.device, a.revenue)
  }

  function PassStart(a: Action): int
    requires !a.Arrive?
  {
    if a.Trailing? then TrailingStart(a.now) else LateStart(a.now)
  }

  function Step(s: State, a: Action): State {
    if a.Arrive? then s.(rows := s.rows + [Arrived(a)])
    else s.(rollup := Refreshed(s.rollup, s.rows, PassStart(a), EndOf(a.now)))
  }

  function Run(s: State, acts: seq<Action>): State {
    if acts == [] then s else Step(Run(s, acts[..|acts| - 1]), acts[|acts| - 1])
  }

  lemma StepKeepsGrounded(s: State, a: Action)
    requires Grounded(s.rollup, s.rows)
    ensures Grounded(Step(s, a).rollup, Step(s, a).rows)
  {
    var s' := Step(s, a);
    forall b | b in s'.rollup ensures exists r | r in s'.rows :: BucketOf(r) == b {
      if b in s.rollup {
        var r :| r in s.rows && BucketOf(r) == b;
        assert r in s'.rows;
      }
    }
  }

  /** In every run, rows obey the clamp and the rollup holds no bucket without rows. */
  lemma {:induction false} RunIsGrounded(acts: seq<Action>)
    ensures var s := Run(State([], map[]), acts);
            Grounded(s.rollup, s.rows) && SkewBounded(s.rows, MAX_CLOCK_SKEW)
  {
    if acts != [] {
      var init, a := acts[..|acts| - 1], acts[|acts| - 1];
      RunIsGrounded(init);
      StepKeepsGrounded(Run(State([], map[]), init), a);
      if a.Arrive? { ClampKeepsTheClock(a.client, a.now); }
    }
  }

  /** The action adds nothing to the bucket and, if a pass, ends after every row of the bucket arrived. */
  ghost predicate Quiet(s: State, a: Action, b: Bucket) {
    if a.Arrive? then BucketOf(Arrived(a)) != b
    else forall r | r in s.rows && BucketOf(r) == b :: r.receivedAt < EndOf(a.now)
  }

  /** The true totals of a bucket, with no cut-off. */
  function Settled(rows: seq<Row>, b: Bucket): seq<Row> { Select(rows, (r: Row) => BucketOf(r) == b) }

  /** The rollup holds the bucket's true totals (and nothing for a bucket without rows). */
  ghost predicate Right(s: State, b: Bucket) {
    if Settled(s.rows, b) == [] then b !in s.rollup
    else b in s.rollup && s.rollup[b] == Aggregate(Settled(s.rows, b))
  }

  /** The action is a pass that reaches the bucket of the given rows ... */
  ghost predicate Visits(rows: seq<Row>, a: Action, b: Bucket) {
    !a.Arrive? && Reaches(rows, b, PassStart(a), EndOf(a.now))
  }

  /** ... or one that sees all of it. */
  ghost predicate SeesAll(rows: seq<Row>, a: Action, b: Bucket) {
    !a.Arrive? && Whole(rows, b, PassStart(a), EndOf(a.now))
  }

  /** What one quiet action does to a bucket. */
  lemma QuietStepIff(s: State, a: Action, b: Bucket)
    requires Quiet(s, a, b)
    ensures Right(Step(s, a), b) <==> if Visits(s.rows, a, b) then SeesAll(s.rows, a, b) else Right(s, b)
    ensures Settled(Step(s, a).rows, b) == Settled(s.rows, b)
  {
    if a.Arrive? {
      SelectSnoc(s.rows, Arrived(a), b);
    } else {
      var end := EndOf(a.now);
      WindowsAreAligned(a.now);
      SelectAgrees(s.rows, (r: Row) => r.receivedAt < end && BucketOf(r) == b, (r: Row) => BucketOf(r) == b);
      assert FullGroup(s.rows, b, end) == Settled(s.rows, b);
      ExactAfterPassIff(s.rollup, s.rows, PassStart(a), end, b);
    }
  }

  lemma {:induction false} SelectSnoc(rows: seq<Row>, r: Row, b: Bucket)
    requires BucketOf(r) != b
    ensures Settled(rows + [r], b) == Settled(rows, b)
  {
    var p := (x: Row) => BucketOf(x) == b;
    SelectAppend(rows, [r], p);
  }

  lemma {:induction false} SelectAppend(a: seq<Row>, b: seq<Row>, p: Row -> bool)
    ensures Select(a + b, p) == Select(a, p) + Select(b, p)
  {
    if a == [] {
      assert a + b == b;
    } else {
      assert (a + b)[1..] == a[1..] + b;
      SelectAppend(a[1..], b, p);
    }
  }

  ghost predicate AllQuiet(s: State, acts: seq<Action>, b: Bucket) {
    forall i | 0 <= i < |acts| :: Quiet(Run(s, acts[..i]), acts[i], b)
  }

  lemma RunStep(s: State, acts: seq<Action>, k: nat)
    requires k < |acts|
    ensures Run(s, acts[..k + 1]) == Step(Run(s, acts[..k]), acts[k])
  {
    assert acts[..k + 1][..k] == acts[..k];
  }

  lemma {:induction false} QuietRun(s: State, acts: seq<Action>, b: Bucket, k: nat)
    requires k <= |acts| && AllQuiet(s, acts, b)
    ensures Settled(Run(s, acts[..k]).rows, b) == Settled(s.rows, b)
  {
    if k > 0 {
      QuietRun(s, acts, b, k - 1);
      RunStep(s, acts, k - 1);
      assert Quiet(Run(s, acts[..k - 1]), acts[k - 1], b);
      if acts[k - 1].Arrive? { SelectSnoc(Run(s, acts[..k - 1]).rows, Arrived(acts[k - 1]), b); }
    }
  }

  /** Only the bucket's own rows matter to what a pass makes of it. */
  lemma SameToAPass(rows: seq<Row>, others: seq<Row>, a: Action, b: Bucket)
    requires Settled(rows, b) == Settled(others, b)
    ensures Visits(rows, a, b) <==> Visits(others, a, b)
    ensures SeesAll(rows, a, b) <==> SeesAll(others, a, b)
  {
    forall r | BucketOf(r) == b ensures r in rows <==> r in others {
      assert r in Settled(rows, b) <==> r in Settled(others, b);
    }
  }

  ghost predicate RightAt(s: State, acts: seq<Action>, b: Bucket, n: nat) {
    n <= |acts| && Right(Run(s, acts[..n]), b)
  }

  lemma NextPass(s: State, acts: seq<Action>, b: Bucket, k: nat)
    requires k < |acts| && AllQuiet(s, acts, b)
    ensures RightAt(s, acts, b, k + 1)
            <==> if Visits(s.rows, acts[k], b) then SeesAll(s.rows, acts[k], b) else RightAt(s, acts, b, k)
  {
    var m := Run(s, acts[..k]);
    RunStep(s, acts, k);
    QuietRun(s, acts, b, k);
    assert Quiet(m, acts[k], b);
    QuietStepIff(m, acts[k], b);
    SameToAPass(s.rows, m.rows, acts[k], b);
  }

  /** The `n`th action visits the bucket and sees all of it, and none after it visits up to `k`. */
  ghost predicate Mended(s: State, acts: seq<Action>, b: Bucket, n: nat, k: nat) {
    && n < k <= |acts| && Visits(s.rows, acts[n], b) && SeesAll(s.rows, acts[n], b)
    && Unvisited(s, acts, b, n + 1, k)
  }

  ghost predicate Unvisited(s: State, acts: seq<Action>, b: Bucket, from: nat, k: nat) {
    k <= |acts| && forall j | from <= j < k :: !Visits(s.rows, acts[j], b)
  }

  lemma MendedStep(s: State, acts: seq<Action>, b: Bucket, n: nat, i: nat, k: nat)
    requires k == i + 1 <= |acts|
    ensures Mended(s, acts, b, n, k)
            <==> if Visits(s.rows, acts[i], b) then n == i && SeesAll(s.rows, acts[i], b) else Mended(s, acts, b, n, i)
    ensures Unvisited(s, acts, b, 0, k) <==> Unvisited(s, acts, b, 0, i) && !Visits(s.rows, acts[i], b)
  {
  }

  ghost predicate EndsRight(s: State, acts: seq<Action>, b: Bucket, k: nat) {
    (exists n: nat :: Mended(s, acts, b, n, k)) || (Unvisited(s, acts, b, 0, k) && Right(s, b))
  }

  lemma EndsRightStep(s: State, acts: seq<Action>, b: Bucket, i: nat, k: nat)
    requires k == i + 1 <= |acts|
    ensures EndsRight(s, acts, b, k)
            <==> if Visits(s.rows, acts[i], b) then SeesAll(s.rows, acts[i], b) else EndsRight(s, acts, b, i)
  {
    MendedStep(s, acts, b, i, i, k);
    if Visits(s.rows, acts[i], b) {
      if n: nat :| Mended(s, acts, b, n, k) { MendedStep(s, acts, b, n, i, k); }
    } else {
      if n: nat :| Mended(s, acts, b, n, k) { MendedStep(s, acts, b, n, i, k); }
      if n: nat :| Mended(s, acts, b, n, i) { MendedStep(s, acts, b, n, i, k); }
    }
  }

  /**
    Once the bucket's rows have stopped arriving, any later run of passes and arrivals elsewhere leaves the
    bucket right if and only if the last pass to visit it saw all of it, or none visited and it was right.
   */
  lemma {:induction false} RightIff(s: State, acts: seq<Action>, b: Bucket, k: nat)
    requires k <= |acts| && AllQuiet(s, acts, b)
    ensures RightAt(s, acts, b, k) <==> EndsRight(s, acts, b, k)
  {
    if k == 0 {
      assert Unvisited(s, acts, b, 0, 0) && acts[..0] == [];
    } else {
      RightIff(s, acts, b, k - 1);
      NextPass(s, acts, b, k - 1);
      EndsRightStep(s, acts, b, k - 1, k);
    }
  }

  /** The `n`th action does not visit the bucket, or sees all of it. */
  ghost predicate SparesAt(s: State, acts: seq<Action>, b: Bucket, n: nat) {
    n < |acts| && (Visits(s.rows, acts[n], b) ==> SeesAll(s.rows, acts[n], b))
  }

  lemma {:induction false} SparedStaysRight(s: State, acts: seq<Action>, b: Bucket, k: nat)
    requires k <= |acts| && Right(s, b) && AllQuiet(s, acts, b)
    requires forall n {:trigger SparesAt(s, acts, b, n)} | 0 <= n < k :: SparesAt(s, acts, b, n)
    ensures RightAt(s, acts, b, k)
  {
    if k > 0 {
      SparedStaysRight(s, acts, b, k - 1);
      assert SparesAt(s, acts, b, k - 1);
      NextPass(s, acts, b, k - 1);
    }
  }

  ghost predicate AlwaysRight(s: State, acts: seq<Action>, b: Bucket) {
    forall n {:trigger RightAt(s, acts, b, n)} | 0 <= n <= |acts| :: RightAt(s, acts, b, n)
  }

  ghost predicate AlwaysSpared(s: State, acts: seq<Action>, b: Bucket) {
    forall n {:trigger SparesAt(s, acts, b, n)} | 0 <= n < |acts| :: SparesAt(s, acts, b, n)
  }

  /**
    And a bucket that is right stays right throughout such a run if and only if every pass that visits it
    sees all of it.
   */
  lemma StaysExactIff(s: State, acts: seq<Action>, b: Bucket)
    requires Right(s, b) && AllQuiet(s, acts, b)
    ensures AlwaysRight(s, acts, b) <==> AlwaysSpared(s, acts, b)
  {
    if AlwaysSpared(s, acts, b) {
      forall n: nat | n <= |acts| ensures RightAt(s, acts, b, n) { SparedStaysRight(s, acts, b, n); }
    }
    if AlwaysRight(s, acts, b) {
      forall n: nat | n < |acts| ensures SparesAt(s, acts, b, n) {
        assert RightAt(s, acts, b, n) && RightAt(s, acts, b, n + 1);
        NextPass(s, acts, b, n);
      }
    }
  }

  /** So a bucket none of whose rows arrived before its hour stays right under any later passes. */
  lemma StaysExact(s: State, acts: seq<Action>, b: Bucket)
    requires Right(s, b) && AllQuiet(s, acts, b)
    requires forall r | r in s.rows && BucketOf(r) == b :: HourStart(b) <= r.receivedAt
    ensures Right(Run(s, acts), b)
  {
    StaysExactIff(s, acts, b);
    forall n: nat | n < |acts| ensures SparesAt(s, acts, b, n) { }
    assert RightAt(s, acts, b, |acts|) && acts[..|acts|] == acts;
  }

  /**
    With forward skew inside the clamp a bucket can go wrong again: a row stamped ten hours ahead is counted
    by the nightly pass, and dropped by the trailing pass that runs after its hour.
   */
  lemma TrailingPassForgetsAheadOfTimeRow(acts: seq<Action>, b: Bucket)
    requires acts == [Arrive(10 * HOUR, Some(20 * HOUR), 0, "buy", Some(2), "a", Some(500)),
                      Arrive(20 * HOUR + 2 * MINUTE, Some(20 * HOUR + MINUTE), 0, "buy", Some(2), "a", Some(200)),
                      Late(21 * HOUR), Trailing(22 * HOUR)]
    requires b == Bucket(0, 20, "buy", 2)
    ensures var s, s' := Run(State([], map[]), acts[..3]), Run(State([], map[]), acts);
            && Right(s, b) && b in s.rollup && s.rollup[b] == Totals(2, 1, 700)
            && !Right(s', b) && b in s'.rollup && s'.rollup[b] == Totals(1, 1, 200)
  {
    var early := Row(10 * HOUR, 20 * HOUR, 0, "buy", Some(2), "a", Some(500));
    var onTime := Row(20 * HOUR + 2 * MINUTE, 20 * HOUR + MINUTE, 0, "buy", Some(2), "a", Some(200));
    var rows, start := [early, onTime], State([], map[]);
    assert Run(start, acts[..1]) == State([early], map[]) by { assert acts[..1][..0] == []; }
    assert Run(start, acts[..2]) == State(rows, map[]) by { assert acts[..2][..1] == acts[..1]; }
    assert LateStart(21 * HOUR) == -8 * DAY && TrailingStart(22 * HOUR) == 19 * HOUR;
    assert acts[..3][..2] == acts[..2] && acts[..4] == acts && acts[..4][..3] == acts[..3];
    var s, s' := Run(start, acts[..3]), Run(start, acts);
    assert s == State(rows, Refreshed(map[], rows, -8 * DAY, EndOf(21 * HOUR)));
    assert s' == State(rows, Refreshed(s.rollup, rows, 19 * HOUR, EndOf(22 * HOUR)));
    TwoRowTotals(early, onTime, -8 * DAY, EndOf(21 * HOUR));
    assert early in rows && InScan(early, -8 * DAY, EndOf(21 * HOUR));
    OneRowTotals(early, onTime, EndOf(22 * HOUR));
    assert onTime in rows && InScan(onTime, 19 * HOUR, EndOf(22 * HOUR));
  }

  lemma OneRowTotals(early: Row, onTime: Row, end: int)
    requires early == Row(10 * HOUR, 20 * HOUR, 0, "buy", Some(2), "a", Some(500))
    requires onTime == Row(20 * HOUR + 2 * MINUTE, 20 * HOUR + MINUTE, 0, "buy", Some(2), "a", Some(200))
    requires end == 22 * HOUR + MINUTE
    ensures Aggregate(ScannedGroup([early, onTime], BucketOf(early), 19 * HOUR, end)) == Totals(1, 1, 200)
  {
    var b := BucketOf(early);
    assert [early, onTime][1..] == [onTime];
    var p := (r: Row) => InScan(r, 19 * HOUR, end) && BucketOf(r) == b;
    assert Select([onTime], p) == [onTime];
    assert Select([early, onTime], p) == [] + [onTime] == [onTime];
    assert ScannedGroup([early, onTime], b, 19 * HOUR, end) == [onTime];
    assert (set r | r in [onTime] :: r.device) == {"a"};
    assert Revenue([onTime]) == 200;
  }

  lemma TwoRowTotals(early: Row, onTime: Row, start: int, end: int)
    requires early == Row(10 * HOUR, 20 * HOUR, 0, "buy", Some(2), "a", Some(500))
    requires onTime == Row(20 * HOUR + 2 * MINUTE, 20 * HOUR + MINUTE, 0, "buy", Some(2), "a", Some(200))
    requires start == -8 * DAY && end == 21 * HOUR + MINUTE
    ensures Settled([early, onTime], BucketOf(early)) == [early, onTime]
    ensures ScannedGroup([early, onTime], BucketOf(early), start, end) == [early, onTime]
    ensures Aggregate([early, onTime]) == Totals(2, 1, 700)
  {
    var b := BucketOf(early);
    assert [early, onTime][1..] == [onTime];
    var q := (r: Row) => BucketOf(r) == b;
    assert Select([onTime], q) == [onTime];
    assert Select([early, onTime], q) == [early] + [onTime];
    var p := (r: Row) => InScan(r, start, end) && BucketOf(r) == b;
    assert Select([onTime], p) == [onTime];
    assert Select([early, onTime], p) == [early] + [onTime];
    assert (set r | r in [early, onTime] :: r.device) == {"a"};
    assert Revenue([onTime]) == 200;
  }
}
