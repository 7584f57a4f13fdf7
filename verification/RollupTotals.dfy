/** What a rollup bucket's numbers are, in the columns of the rows themselves. Times are microseconds. */
module RollupTotals {
  import opened Common
  import opened Rollups

  /** The row belongs to the bucket: app, name, the hour it occurred in, and platform with 0 for none. */
  predicate In(r: Row, b: Bucket) {
    && r.app == b.app && r.name == b.name
    && 3_600_000_000 * b.hour <= r.occurredAt < 3_600_000_000 * (b.hour + 1)
    && (r.platform == Some(b.platform) || (r.platform.None? && b.platform == 0))
  }

  /** The positions of the bucket's rows among the first `n`, received before `end`. */
  function Positions(rows: seq<Row>, b: Bucket, end: int, n: nat): set<nat>
    requires n <= |rows|
  {
    set i: nat | i < n && In(rows[i], b) && rows[i].receivedAt < end
  }

  function Devices(rows: seq<Row>, b: Bucket, end: int, n: nat): set<string>
    requires n <= |rows|
  {
    set i | i in Positions(rows, b, end, n) :: rows[i].device
  }

  /** The amounts of those rows added up; a row without one adds nothing. */
  function Earned(rows: seq<Row>, b: Bucket, end: int, n: nat): int
    requires n <= |rows|
  {
    if n == 0 then 0
    else
      var r := rows[n - 1];
      Earned(rows, b, end, n - 1) + if In(r, b) && r.receivedAt < end && r.revenue.Some? then r.revenue.value else 0
  }

  lemma InIsBucketOf(r: Row, b: Bucket)
    ensures In(r, b) <==> BucketOf(r) == b
  {
    BucketHour(r);
    if In(r, b) {
      var h := r.occurredAt / HOUR;
      assert HOUR * h <= r.occurredAt < HOUR * (h + 1);
      assert h == b.hour;
    }
  }

  lemma GroupSnoc(rows: seq<Row>, b: Bucket, end: int, n: nat)
    requires n < |rows|
    ensures FullGroup(rows[..n + 1], b, end)
            == FullGroup(rows[..n], b, end) + if In(rows[n], b) && rows[n].receivedAt < end then [rows[n]] else []
  {
    var q := (r: Row) => r.receivedAt < end && BucketOf(r) == b;
    InIsBucketOf(rows[n], b);
    assert rows[..n + 1] == rows[..n] + [rows[n]];
    SelectAppend(rows[..n], [rows[n]], q);
    assert Select([rows[n]], q) == if q(rows[n]) then [rows[n]] else [];
  }

  lemma {:induction false} RevenueSnoc(rows: seq<Row>, r: Row)
    ensures Revenue(rows + [r]) == Revenue(rows) + if r.revenue.Some? then r.revenue.value else 0
  {
    if rows == [] {
      assert rows + [r] == [r];
    } else {
      assert (rows + [r])[1..] == rows[1..] + [r];
      RevenueSnoc(rows[1..], r);
    }
  }

  /** The group's numbers against the rows' own columns. */
  ghost predicate Tallies(g: seq<Row>, rows: seq<Row>, b: Bucket, end: int, n: nat)
    requires n <= |rows|
  {
    && |g| == |Positions(rows, b, end, n)|
    && (set r | r in g :: r.device) == Devices(rows, b, end, n)
    && Revenue(g) == Earned(rows, b, end, n)
  }

  lemma PositionsSnoc(rows: seq<Row>, b: Bucket, end: int, n: nat)
    requires n < |rows|
    ensures var here := In(rows[n], b) && rows[n].receivedAt < end;
            && Positions(rows, b, end, n + 1) == Positions(rows, b, end, n) + (if here then {n} else {})
            && Devices(rows, b, end, n + 1) == Devices(rows, b, end, n) + (if here then {rows[n].device} else {})
  {
  }

  lemma TallyOne(g: seq<Row>, g': seq<Row>, rows: seq<Row>, b: Bucket, end: int, n: nat)
    requires n < |rows| && Tallies(g, rows, b, end, n)
    requires g' == g + if In(rows[n], b) && rows[n].receivedAt < end then [rows[n]] else []
    ensures Tallies(g', rows, b, end, n + 1)
  {
    var r := rows[n];
    PositionsSnoc(rows, b, end, n);
    if In(r, b) && r.receivedAt < end {
      RevenueSnoc(g, r);
      assert (set x | x in g + [r] :: x.device) == (set x | x in g :: x.device) + {r.device};
    } else {
      assert g + [] == g;
    }
  }

  lemma {:induction false} GroupTallies(rows: seq<Row>, b: Bucket, end: int, n: nat)
    requires n <= |rows|
    ensures Tallies(FullGroup(rows[..n], b, end), rows, b, end, n)
  {
    if n > 0 {
      GroupTallies(rows, b, end, n - 1);
      GroupSnoc(rows, b, end, n - 1);
      TallyOne(FullGroup(rows[..n - 1], b, end), FullGroup(rows[..n], b, end), rows, b, end, n - 1);
    } else {
      assert rows[..0] == [];
    }
  }

  /**
    An exact bucket holds, of its rows received before the end, their number, how many different devices they
    are from and the sum of their amounts; and there is no bucket without rows.
   */
  lemma BucketTotals(rollup: Rollup, rows: seq<Row>, b: Bucket, end: int)
    ensures Exact(rollup, rows, b, end)
            <==> if Positions(rows, b, end, |rows|) == {} then b !in rollup
                 else && b in rollup
                      && rollup[b].events == |Positions(rows, b, end, |rows|)|
                      && rollup[b].devices == |Devices(rows, b, end, |rows|)|
                      && rollup[b].revenue == Earned(rows, b, end, |rows|)
  {
    GroupTallies(rows, b, end, |rows|);
    assert rows[..|rows|] == rows;
  }

  /** What the rows of a bucket add up to. */
  function Sum(rows: seq<Row>, b: Bucket, end: int): Totals {
    Totals(|Positions(rows, b, end, |rows|)|, |Devices(rows, b, end, |rows|)|, Earned(rows, b, end, |rows|))
  }

  lemma ExactIsSum(rollup: Rollup, rows: seq<Row>, b: Bucket, end: int)
    requires Exact(rollup, rows, b, end)
    ensures Sum(rows, b, end) == if b in rollup then rollup[b] else Totals(0, 0, 0)
    ensures Positions(rows, b, end, |rows|) != {} ==> b in rollup
  {
    BucketTotals(rollup, rows, b, end);
    if b !in rollup { NothingEarned(rows, b, end, |rows|); }
  }

  lemma SumOneMore(rows: seq<Row>, r: Row, b: Bucket, end: int)
    requires In(r, b) && r.receivedAt < end
    ensures var was, now := Sum(rows, b, end), Sum(rows + [r], b, end);
            && now.events == was.events + 1
            && now.devices == was.devices + (if r.device in Devices(rows, b, end, |rows|) then 0 else 1)
            && now.revenue == was.revenue + (if r.revenue.Some? then r.revenue.value else 0)
    ensures Positions(rows + [r], b, end, |rows| + 1) != {}
  {
    var n := |rows|;
    var at, devices := Positions(rows, b, end, n), Devices(rows, b, end, n);
    SameSoFar(rows, r, b, end, n);
    PositionsSnoc(rows + [r], b, end, n);
    OneMoreIn(at, n);
    OneMoreIn(devices, r.device);
  }

  lemma OneMoreIn<T>(s: set<T>, x: T)
    ensures |s + {x}| == |s| + (if x in s then 0 else 1) && x in s + {x}
  {
    if x in s { assert s + {x} == s; }
  }

  /** One more row of the bucket is one more event, one more device if that is a new one, and its own amount. */
  lemma OneMoreRow(rollup: Rollup, rollup': Rollup, rows: seq<Row>, r: Row, b: Bucket, end: int)
    requires In(r, b) && r.receivedAt < end && Exact(rollup, rows, b, end) && Exact(rollup', rows + [r], b, end)
    ensures var was := if b in rollup then rollup[b] else Totals(0, 0, 0);
            && b in rollup'
            && rollup'[b].events == was.events + 1
            && rollup'[b].devices == was.devices + (if r.device in Devices(rows, b, end, |rows|) then 0 else 1)
            && rollup'[b].revenue == was.revenue + (if r.revenue.Some? then r.revenue.value else 0)
  {
    ExactIsSum(rollup, rows, b, end);
    ExactIsSum(rollup', rows + [r], b, end);
    SumOneMore(rows, r, b, end);
  }

  lemma SameSoFar(rows: seq<Row>, r: Row, b: Bucket, end: int, n: nat)
    requires n <= |rows|
    ensures Positions(rows + [r], b, end, n) == Positions(rows, b, end, n)
    ensures Devices(rows + [r], b, end, n) == Devices(rows, b, end, n)
    ensures Earned(rows + [r], b, end, n) == Earned(rows, b, end, n)
  {
    EarnedPrefix(rows, r, b, end, n);
    assert forall i | 0 <= i < n :: (rows + [r])[i] == rows[i];
  }

  lemma {:induction false} EarnedPrefix(rows: seq<Row>, r: Row, b: Bucket, end: int, n: nat)
    requires n <= |rows|
    ensures Earned(rows + [r], b, end, n) == Earned(rows, b, end, n)
  {
    if n > 0 { EarnedPrefix(rows, r, b, end, n - 1); }
  }

  lemma {:induction false} NothingEarned(rows: seq<Row>, b: Bucket, end: int, n: nat)
    requires n <= |rows| && Positions(rows, b, end, n) == {}
    ensures Earned(rows, b, end, n) == 0 && Devices(rows, b, end, n) == {}
  {
    if n > 0 {
      PositionsSnoc(rows, b, end, n - 1);
      NothingEarned(rows, b, end, n - 1);
    }
  }

  // --- the two passes, in hours and days ---

  /** The bucket holds its true numbers as of `end`. */
  ghost predicate True(rollup: Rollup, rows: seq<Row>, b: Bucket, end: int) {
    && b in rollup
    && rollup[b].events == |Positions(rows, b, end, |rows|)|
    && rollup[b].devices == |Devices(rows, b, end, |rows|)|
    && rollup[b].revenue == Earned(rows, b, end, |rows|)
  }

  lemma SomethingThere(rollup: Rollup, rows: seq<Row>, b: Bucket, end: int)
    requires Positions(rows, b, end, |rows|) != {}
    ensures FullGroup(rows, b, end) != [] && (Exact(rollup, rows, b, end) <==> True(rollup, rows, b, end))
  {
    BucketTotals(rollup, rows, b, end);
    GroupTallies(rows, b, end, |rows|);
    assert rows[..|rows|] == rows;
  }

  /** After the nightly pass every bucket of the last seven days with rows is true up to a minute ahead. */
  lemma NightlyPassIsTrue(rollup: Rollup, rows: seq<Row>, now: int, b: Bucket)
    requires forall r | r in rows :: r.occurredAt <= r.receivedAt + 86_400_000_000
    requires now - 7 * 86_400_000_000 <= 3_600_000_000 * b.hour && Positions(rows, b, now + 60_000_000, |rows|) != {}
    ensures True(Step(State(rows, rollup), Late(now)).rollup, rows, b, now + 60_000_000)
  {
    var after := Step(State(rows, rollup), Late(now)).rollup;
    SomethingThere(after, rows, b, now + 60_000_000);
    LatePassIsExact(rollup, rows, now, b);
  }

  /**
    After a trailing pass every bucket of the last three hours, less the most that a row runs ahead of its
    arrival, is true.
   */
  lemma TrailingPassIsTrue(rollup: Rollup, rows: seq<Row>, now: int, b: Bucket, ahead: nat)
    requires forall r | r in rows :: r.occurredAt <= r.receivedAt + ahead
    requires now - 10_800_000_000 + ahead <= 3_600_000_000 * b.hour
    requires Positions(rows, b, now + 60_000_000, |rows|) != {}
    ensures True(Step(State(rows, rollup), Trailing(now)).rollup, rows, b, now + 60_000_000)
  {
    WindowsAreAligned(now);
    SomethingThere(Step(State(rows, rollup), Trailing(now)).rollup, rows, b, now + 60_000_000);
    RefreshIsExact(rollup, rows, TrailingStart(now), EndOf(now), b, ahead);
  }

  /** A bucket that ended three hours ago or earlier is left as it was. */
  lemma TrailingPassLeaves(rollup: Rollup, rows: seq<Row>, now: int, b: Bucket)
    requires 3_600_000_000 * (b.hour + 1) <= now - 10_800_000_000
    ensures var after := Step(State(rows, rollup), Trailing(now)).rollup;
            (b in after <==> b in rollup) && (b in rollup ==> after[b] == rollup[b])
  {
    WindowsAreAligned(now);
    EarlierBucketsUntouched(rollup, rows, TrailingStart(now), EndOf(now), b);
  }

  /** And by the nightly pass one that ended nine days ago or earlier is left as it was. */
  lemma NightlyPassLeaves(rollup: Rollup, rows: seq<Row>, now: int, b: Bucket)
    requires 3_600_000_000 * (b.hour + 1) <= now - 9 * 86_400_000_000
    ensures var after := Step(State(rows, rollup), Late(now)).rollup;
            (b in after <==> b in rollup) && (b in rollup ==> after[b] == rollup[b])
  {
    WindowsAreAligned(now);
    EarlierBucketsUntouched(rollup, rows, LateStart(now), EndOf(now), b);
  }
}
