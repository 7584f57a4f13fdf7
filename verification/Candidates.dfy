/**
  Loading only the clicks that could win. The loader looks a click up by each id it has and asks for
  at most fifty clicks of the device, newest first; the engine should then decide as if it had seen
  every click of the app.
 */
module Candidates {
  import opened Common
  import opened Engine

  const MAX_DEVICE_CANDIDATES: nat := 50

  /** A row of the clicks table. */
  datatype Row = Row(app: nat, id: nat, at: int, hash: Option<string>, isBot: bool, details: nat)

  /** An empty hash in the table is no hash. */
  function ToClick(r: Row): Click {
    Click(r.id, r.at, if r.hash == Some("") then None else r.hash, r.isBot, r.details)
  }

  ghost predicate UniqueTable(table: set<Row>) {
    forall a, b | a in table && b in table && a.id == b.id :: a == b
  }

  // --- the two queries ---

  predicate InRange(r: Row, app: nat, installedAt: int, windowDays: int) {
    r.app == app && installedAt - windowDays * DAY <= r.at <= installedAt
  }

  /** What the device query's WHERE clause selects. */
  function DeviceRows(table: set<Row>, app: nat, installedAt: int, windowDays: int, hash: string): set<Row> {
    set r | r in table && InRange(r, app, installedAt, windowDays) && r.hash == Some(hash)
  }

  /** `ORDER BY clicked_at DESC LIMIT n`: rows with equal times come in no particular order. */
  ghost predicate IsTop(matching: set<Row>, rows: seq<Row>, n: nat) {
    && |rows| == Min(n, |matching|)
    && (forall i | 0 <= i < |rows| :: rows[i] in matching)
    && (forall i, j | 0 <= i < j < |rows| :: rows[i] != rows[j] && rows[i].at >= rows[j].at)
    && (forall i, r | 0 <= i < |rows| && r in matching && r !in rows :: rows[i].at >= r.at)
  }

  ghost predicate IsDeviceAnswer(table: set<Row>, app: nat, installedAt: int, windowDays: int,
                                 hash: Option<string>, rows: seq<Row>)
  {
    if hash.None? then rows == []
    else IsTop(DeviceRows(table, app, installedAt, windowDays, hash.value), rows, MAX_DEVICE_CANDIDATES)
  }

  ghost function RowSet(rows: seq<Row>): set<Row> { set r | r in rows }

  ghost function ById(table: set<Row>, app: nat, installedAt: int, windowDays: int, clickIds: seq<nat>): set<Row> {
    set r | r in table && r.id in clickIds && InRange(r, app, installedAt, windowDays)
  }

  /** Every row the loader keeps. */
  ghost function LoadedRows(table: set<Row>, app: nat, installedAt: int, windowDays: int,
                            clickIds: seq<nat>, rows: seq<Row>): set<Row>
  {
    ById(table, app, installedAt, windowDays, clickIds) + RowSet(rows)
  }

  /** The dictionary, keyed by click id, holds these rows and no others. */
  ghost predicate HoldsExactly(found: map<nat, Row>, rows: set<Row>) {
    && (forall r | r in rows :: r.id in found && found[r.id] == r)
    && (forall id | id in found :: found[id] in rows && found[id].id == id)
  }

  lemma HoldsOneMore(table: set<Row>, found: map<nat, Row>, rows: set<Row>, r: Row)
    requires UniqueTable(table) && rows <= table && r in table && HoldsExactly(found, rows)
    ensures HoldsExactly(found[r.id := r], rows + {r}) && (r.id in found ==> found[r.id] == r && rows + {r} == rows)
  {
    if r.id in found { assert found[r.id] in table && found[r.id].id == r.id; }
  }

  /** First query: each click id the install names. */
  method LoadById(table: set<Row>, app: nat, installedAt: int, windowDays: int, clickIds: seq<nat>)
    returns (found: map<nat, Row>)
    ensures UniqueTable(table) ==> HoldsExactly(found, ById(table, app, installedAt, windowDays, clickIds))
  {
    found := map[];
    for i := 0 to |clickIds|
      invariant UniqueTable(table) ==> HoldsExactly(found, ById(table, app, installedAt, windowDays, clickIds[..i]))
    {
      ghost var before := ById(table, app, installedAt, windowDays, clickIds[..i]);
      var answer := set r | r in table && r.id == clickIds[i] && InRange(r, app, installedAt, windowDays);
      assert clickIds[..i + 1] == clickIds[..i] + [clickIds[i]];
      assert ById(table, app, installedAt, windowDays, clickIds[..i + 1]) == before + answer;
      if answer != {} {
        var r :| r in answer;
        if UniqueTable(table) {
          assert answer == {r};
          HoldsOneMore(table, found, before, r);
        }
        found := found[r.id := r];
      }
    }
    assert clickIds[..|clickIds|] == clickIds;
  }

  /** Second query: the device's rows, none replacing what is already there. */
  method AddDeviceRows(ghost table: set<Row>, ghost base: set<Row>, already: map<nat, Row>, rows: seq<Row>)
    returns (found: map<nat, Row>)
    requires base <= table && forall r | r in rows :: r in table
    requires UniqueTable(table) ==> HoldsExactly(already, base)
    ensures UniqueTable(table) ==> HoldsExactly(found, base + RowSet(rows))
  {
    found := already;
    assert base + RowSet(rows[..0]) == base;
    for i := 0 to |rows|
      invariant UniqueTable(table) ==> HoldsExactly(found, base + RowSet(rows[..i]))
    {
      ghost var before := base + RowSet(rows[..i]);
      assert rows[..i + 1] == rows[..i] + [rows[i]];
      assert RowSet(rows[..i + 1]) == RowSet(rows[..i]) + {rows[i]};
      assert base + RowSet(rows[..i + 1]) == before + {rows[i]};
      if UniqueTable(table) { HoldsOneMore(table, found, before, rows[i]); }
      if rows[i].id !in found {
        found := found[rows[i].id := rows[i]];
      }
    }
    assert rows[..|rows|] == rows;
  }

  method LoadCandidates(table: set<Row>, app: nat, installedAt: int, windowDays: int,
                        clickIds: seq<nat>, hash: Option<string>, rows: seq<Row>) returns (found: map<nat, Row>)
    requires IsDeviceAnswer(table, app, installedAt, windowDays, hash, rows)
    ensures UniqueTable(table) ==> HoldsExactly(found, LoadedRows(table, app, installedAt, windowDays, clickIds, rows))
  {
    found := LoadById(table, app, installedAt, windowDays, clickIds);
    if hash.Some? {
      found := AddDeviceRows(table, ById(table, app, installedAt, windowDays, clickIds), found, rows);
    } else {
      assert LoadedRows(table, app, installedAt, windowDays, clickIds, rows)
               == ById(table, app, installedAt, windowDays, clickIds);
    }
  }

  // --- refinement of "every click of the app" ---

  ghost predicate Lists(clicks: seq<Click>, rows: set<Row>) {
    && (forall r | r in rows :: ToClick(r) in clicks)
    && (forall c | c in clicks :: exists r | r in rows :: ToClick(r) == c)
  }

  ghost function AppRows(table: set<Row>, app: nat): set<Row> { set r | r in table && r.app == app }

  function IdsToLookUp(install: Install, referrerClickId: Option<nat>): seq<nat> {
    (if referrerClickId.Some? then [referrerClickId.value] else [])
    + (if install.clickId.Some? then [install.clickId.value] else [])
  }

  /** The rows the device tier chooses among: in the window, of the device, not bots. */
  ghost predicate Contends(r: Row, app: nat, install: Install, windowDays: int) {
    InRange(r, app, install.at, windowDays) && !r.isBot && Matches(ToClick(r), install)
  }

  /** The row the device tier would choose from the whole table. */
  ghost predicate IsNewestContender(table: set<Row>, r: Row, app: nat, install: Install, windowDays: int) {
    && r in table && Contends(r, app, install, windowDays)
    && forall o | o in table && Contends(o, app, install, windowDays) :: !Newer(ToClick(o), ToClick(r))
  }

  ghost predicate SameAnswer(a: Decision, b: Decision) { a.how == b.how && a.click == b.click }

  /** No id the install carries names an eligible click, so the decision falls to the device tier. */
  ghost predicate ReachesDeviceTier(table: set<Row>, app: nat, install: Install, windowDays: int,
                                    referrerClickId: Option<nat>) {
    forall r | r in table && InRange(r, app, install.at, windowDays) && !r.isBot ::
      Some(r.id) != referrerClickId && Some(r.id) != install.clickId
  }

  lemma ListedUnique(table: set<Row>, rows: set<Row>, clicks: seq<Click>)
    requires UniqueTable(table) && rows <= table && Lists(clicks, rows)
    ensures UniqueIds(set c | c in clicks)
  {
    forall a, b | a in clicks && b in clicks && a.id == b.id ensures a == b {
      var r :| r in rows && ToClick(r) == a;
      var s :| s in rows && ToClick(s) == b;
      assert r == s;
    }
  }

  /** Eligibility in the engine is the WHERE clause plus the bot filter. */
  lemma EligibleIffListed(rows: set<Row>, clicks: seq<Click>, app: nat, install: Install, windowDays: int)
    requires Lists(clicks, rows) && forall r | r in rows :: r.app == app
    ensures forall r | r in rows && InRange(r, app, install.at, windowDays) && !r.isBot ::
              ToClick(r) in EligibleSet(clicks, install, windowDays, false)
    ensures forall c | c in EligibleSet(clicks, install, windowDays, false) ::
              exists r | r in rows :: ToClick(r) == c && InRange(r, app, install.at, windowDays) && !r.isBot
  {
    forall c | c in EligibleSet(clicks, install, windowDays, false)
      ensures exists r | r in rows :: ToClick(r) == c && InRange(r, app, install.at, windowDays) && !r.isBot
    {
      var r :| r in rows && ToClick(r) == c;
    }
  }

  /** An id tier sees the same click in the loaded set as in the whole table. */
  lemma IdTierAgrees(table: set<Row>, app: nat, install: Install, windowDays: int,
                     loadedRows: set<Row>, loaded: seq<Click>, all: seq<Click>, id: Option<nat>)
    requires UniqueTable(table) && loadedRows <= AppRows(table, app)
    requires Lists(loaded, loadedRows) && Lists(all, AppRows(table, app))
    requires forall r | r in AppRows(table, app) && Some(r.id) == id && InRange(r, app, install.at, windowDays) ::
               r in loadedRows
    ensures HasId(EligibleSet(loaded, install, windowDays, false), id)
            <==> HasId(EligibleSet(all, install, windowDays, false), id)
  {
    EligibleIffListed(AppRows(table, app), all, app, install, windowDays);
    EligibleIffListed(loadedRows, loaded, app, install, windowDays);
    var big, small := EligibleSet(all, install, windowDays, false), EligibleSet(loaded, install, windowDays, false);
    forall c | c in small ensures c in big {
      var r :| r in loadedRows && ToClick(r) == c && InRange(r, app, install.at, windowDays) && !r.isBot;
    }
    forall c | c in big && Some(c.id) == id ensures c in small {
      var r :| r in AppRows(table, app) && ToClick(r) == c && InRange(r, app, install.at, windowDays) && !r.isBot;
      assert r in loadedRows;
    }
  }

  /** A decision over fewer clicks is the decision over more, if no id tier is lost and the device winner is kept. */
  lemma DecidesCarriesOver(small: set<Click>, big: set<Click>, install: Install, referrerClickId: Option<nat>,
                           d: Decision, e: Decision)
    requires small <= big && UniqueIds(big)
    requires HasId(small, referrerClickId) <==> HasId(big, referrerClickId)
    requires HasId(small, install.clickId) <==> HasId(big, install.clickId)
    requires Decides(d.how, d.click, small, install, referrerClickId)
    requires Decides(e.how, e.click, big, install, referrerClickId)
    requires e.how == DeviceMatch ==> e.click.value in small
    ensures d.how == e.how && d.click == e.click
  {
    if e.how == DeviceMatch {
      assert Matches(e.click.value, install);
      assert d.how == DeviceMatch;
      assert !Newer(e.click.value, d.click.value) && !Newer(d.click.value, e.click.value);
    }
  }

  /** Enough for agreement: no id tier is missed, and the newest contender, if any, was loaded. */
  lemma AgreesWhenNewestLoaded(table: set<Row>, app: nat, install: Install, windowDays: int,
                               referrerClickId: Option<nat>,
                               loadedRows: set<Row>, loaded: seq<Click>, all: seq<Click>)
    requires UniqueTable(table) && loadedRows <= AppRows(table, app)
    requires Lists(loaded, loadedRows) && Lists(all, AppRows(table, app))
    requires forall r | r in AppRows(table, app) && InRange(r, app, install.at, windowDays)
                        && (Some(r.id) == referrerClickId || Some(r.id) == install.clickId) :: r in loadedRows
    requires ReachesDeviceTier(table, app, install, windowDays, referrerClickId) ==>
               forall r | IsNewestContender(table, r, app, install, windowDays) :: r in loadedRows
    ensures SameAnswer(Attribute(install, loaded, windowDays, referrerClickId, false),
                       Attribute(install, all, windowDays, referrerClickId, false))
  {
    var d := Attribute(install, loaded, windowDays, referrerClickId, false);
    var e := Attribute(install, all, windowDays, referrerClickId, false);
    var small, big := EligibleSet(loaded, install, windowDays, false), EligibleSet(all, install, windowDays, false);
    assert Decides(d.how, d.click, small, install, referrerClickId) by {
      AttributeDecides(install, loaded, windowDays, referrerClickId, false);
    }
    assert Decides(e.how, e.click, big, install, referrerClickId) by {
      AttributeDecides(install, all, windowDays, referrerClickId, false);
    }
    IdTierAgrees(table, app, install, windowDays, loadedRows, loaded, all, referrerClickId);
    IdTierAgrees(table, app, install, windowDays, loadedRows, loaded, all, install.clickId);
    assert UniqueIds(big) by { ListedUnique(table, AppRows(table, app), all); }
    SmallInBig(table, app, install, windowDays, loadedRows, loaded, all);
    if e.how == DeviceMatch {
      assert e.click.value in small by {
        DeviceWinnerIsNewest(table, app, install, windowDays, referrerClickId, all);
        var r :| IsNewestContender(table, r, app, install, windowDays) && Some(ToClick(r)) == e.click;
        EligibleIffListed(loadedRows, loaded, app, install, windowDays);
      }
    }
    DecidesCarriesOver(small, big, install, referrerClickId, d, e);
  }

  lemma SmallInBig(table: set<Row>, app: nat, install: Install, windowDays: int,
                   loadedRows: set<Row>, loaded: seq<Click>, all: seq<Click>)
    requires loadedRows <= AppRows(table, app)
    requires Lists(loaded, loadedRows) && Lists(all, AppRows(table, app))
    ensures EligibleSet(loaded, install, windowDays, false) <= EligibleSet(all, install, windowDays, false)
  {
    forall c | c in loaded ensures c in all {
      var r :| r in loadedRows && ToClick(r) == c;
    }
  }

  lemma DeviceWinnerIsNewest(table: set<Row>, app: nat, install: Install, windowDays: int, referrerClickId: Option<nat>,
                             all: seq<Click>)
    requires Lists(all, AppRows(table, app))
    requires Attribute(install, all, windowDays, referrerClickId, false).how == DeviceMatch
    ensures ReachesDeviceTier(table, app, install, windowDays, referrerClickId)
    ensures exists r :: IsNewestContender(table, r, app, install, windowDays)
                        && Some(ToClick(r)) == Attribute(install, all, windowDays, referrerClickId, false).click
  {
    var e := Attribute(install, all, windowDays, referrerClickId, false);
    var big := EligibleSet(all, install, windowDays, false);
    AttributeDecides(install, all, windowDays, referrerClickId, false);
    EligibleIffListed(AppRows(table, app), all, app, install, windowDays);
    var r :| r in AppRows(table, app) && ToClick(r) == e.click.value && InRange(r, app, install.at, windowDays)
      && !r.isBot;
    forall o | o in table && Contends(o, app, install, windowDays) ensures !Newer(ToClick(o), ToClick(r)) {
      assert o in AppRows(table, app);
      assert ToClick(o) in big;
    }
    forall o | o in table && InRange(o, app, install.at, windowDays) && !o.isBot
      ensures Some(o.id) != referrerClickId && Some(o.id) != install.clickId
    {
      assert o in AppRows(table, app) && ToClick(o) in big;
    }
  }

  /**
    The loader's clicks and all clicks of the app lead to the same method and the same click exactly
    when the device query did not cut off the newest contender (or an id already decided the matter).
   */
  lemma LoadedAgreesIff(table: set<Row>, app: nat, install: Install, windowDays: int, referrerClickId: Option<nat>,
                        rows: seq<Row>, loaded: seq<Click>, all: seq<Click>)
    requires UniqueTable(table)
    requires IsDeviceAnswer(table, app, install.at, windowDays, install.deviceHash, rows)
    requires Lists(loaded, LoadedRows(table, app, install.at, windowDays, IdsToLookUp(install, referrerClickId), rows))
    requires Lists(all, AppRows(table, app))
    ensures SameAnswer(Attribute(install, loaded, windowDays, referrerClickId, false),
                       Attribute(install, all, windowDays, referrerClickId, false))
            <==> (ReachesDeviceTier(table, app, install, windowDays, referrerClickId) ==>
                    forall r | IsNewestContender(table, r, app, install, windowDays) :: r in rows)
  {
    var ids := IdsToLookUp(install, referrerClickId);
    var loadedRows := LoadedRows(table, app, install.at, windowDays, ids, rows);
    assert loadedRows <= AppRows(table, app) by {
      forall r | r in rows ensures r in AppRows(table, app) {}
    }
    var reaches := ReachesDeviceTier(table, app, install, windowDays, referrerClickId);
    if reaches {
      forall r | IsNewestContender(table, r, app, install, windowDays) ensures r in loadedRows <==> r in rows {}
    }
    if reaches ==> forall r | IsNewestContender(table, r, app, install, windowDays) :: r in rows {
      AgreesWhenNewestLoaded(table, app, install, windowDays, referrerClickId, loadedRows, loaded, all);
    } else {
      var r :| IsNewestContender(table, r, app, install, windowDays) && r !in rows;
      MissedNewestIsNotChosen(table, app, install, windowDays, referrerClickId, loadedRows, loaded, all, r);
    }
  }

  lemma MissedNewestIsNotChosen(table: set<Row>, app: nat, install: Install, windowDays: int,
                                referrerClickId: Option<nat>,
                                loadedRows: set<Row>, loaded: seq<Click>, all: seq<Click>, r: Row)
    requires UniqueTable(table) && loadedRows <= AppRows(table, app)
    requires Lists(loaded, loadedRows) && Lists(all, AppRows(table, app))
    requires ReachesDeviceTier(table, app, install, windowDays, referrerClickId)
    requires IsNewestContender(table, r, app, install, windowDays) && r !in loadedRows
    ensures !SameAnswer(Attribute(install, loaded, windowDays, referrerClickId, false),
                        Attribute(install, all, windowDays, referrerClickId, false))
  {
    var e := Attribute(install, all, windowDays, referrerClickId, false);
    var d := Attribute(install, loaded, windowDays, referrerClickId, false);
    var big := EligibleSet(all, install, windowDays, false);
    AttributeDecides(install, all, windowDays, referrerClickId, false);
    AttributeDecides(install, loaded, windowDays, referrerClickId, false);
    EligibleIffListed(AppRows(table, app), all, app, install, windowDays);
    assert r in AppRows(table, app) && ToClick(r) in big && Matches(ToClick(r), install);
    forall c | c in big ensures Some(c.id) != referrerClickId && Some(c.id) != install.clickId {
      var o :| o in AppRows(table, app) && ToClick(o) == c && InRange(o, app, install.at, windowDays) && !o.isBot;
    }
    assert e.how == DeviceMatch && e.click.Some? && e.click.value in big;
    var w :| w in AppRows(table, app) && ToClick(w) == e.click.value && InRange(w, app, install.at, windowDays)
      && !w.isBot;
    assert !Newer(ToClick(r), ToClick(w)) && !Newer(ToClick(w), ToClick(r));
    assert w == r;
    forall c | c in loaded ensures c.id != r.id {
      var o :| o in loadedRows && ToClick(o) == c;
    }
  }

  // --- when the limit cannot cut the winner off ---

  /** Clicks of the device, bots included, at or after the winner's time. */
  ghost function AtOrAfter(matching: set<Row>, best: Row): set<Row> {
    set r | r in matching && r != best && r.at >= best.at
  }

  lemma SetOfSeqSize(rows: seq<Row>, s: set<Row>)
    requires forall i, j | 0 <= i < j < |rows| :: rows[i] != rows[j]
    requires forall i | 0 <= i < |rows| :: rows[i] in s
    ensures |rows| <= |s|
  {
    if rows != [] {
      var n := |rows| - 1;
      forall i | 0 <= i < n ensures rows[..n][i] in s - {rows[n]} {}
      SetOfSeqSize(rows[..n], s - {rows[n]});
    }
  }

  lemma NewestByTime(s: set<Row>) returns (m: Row)
    requires s != {}
    ensures m in s && forall r | r in s :: r.at <= m.at
  {
    m :| m in s;
    if s != {m} {
      var o := NewestByTime(s - {m});
      if o.at > m.at { m := o; }
    }
  }

  lemma TopExists(s: set<Row>, n: nat) returns (rows: seq<Row>)
    ensures IsTop(s, rows, n)
  {
    if n == 0 || s == {} {
      rows := [];
    } else {
      var m := NewestByTime(s);
      var rest := TopExists(s - {m}, n - 1);
      rows := [m] + rest;
      forall i | 0 <= i < |rows| ensures rows[i] in s {}
      forall i, j | 0 <= i < j < |rows| ensures rows[i] != rows[j] && rows[i].at >= rows[j].at {
        assert rows[j] == rest[j - 1] && rest[j - 1] in s - {m};
      }
      forall i, r | 0 <= i < |rows| && r in s && r !in rows ensures rows[i].at >= r.at {
        assert rows[0] in rows && r in s - {m} && r !in rest;
        if i > 0 { assert rows[i] == rest[i - 1]; }
      }
    }
  }

  /** A permitted answer without `best`, when fifty others are at least as new. */
  lemma AnswerWithout(matching: set<Row>, best: Row, n: nat) returns (rows: seq<Row>)
    requires best in matching && |AtOrAfter(matching, best)| >= n
    ensures IsTop(matching, rows, n) && best !in rows
  {
    var others := matching - {best};
    rows := TopExists(others, n);
    var newer := AtOrAfter(matching, best);
    assert newer <= others;
    SubsetSize(newer, others);
    forall i | 0 <= i < |rows| ensures rows[i].at >= best.at {
      if rows[i].at < best.at {
        forall r | r in newer ensures r in rows {}
        var chosen := set k | 0 <= k < |rows| :: rows[k];
        assert newer + {rows[i]} <= chosen;
        SubsetSize(newer + {rows[i]}, chosen);
        ImageSize(rows);
        assert false;
      }
    }
    forall i | 0 <= i < |rows| ensures rows[i] != best { assert rows[i] in others; }
  }

  lemma {:induction false} ImageSize(rows: seq<Row>)
    ensures |set k | 0 <= k < |rows| :: rows[k]| <= |rows|
  {
    if rows != [] {
      var n := |rows| - 1;
      ImageSize(rows[..n]);
      assert (set k | 0 <= k < |rows| :: rows[k]) == (set k | 0 <= k < n :: rows[..n][k]) + {rows[n]};
    }
  }

  /**
    Whatever order the database gives equal times in, the winner survives the limit exactly when
    fewer than fifty other clicks of the device in the window, bots included, are at least as new.
   */
  lemma LimitNeverCutsWinnerIff(matching: set<Row>, best: Row)
    requires best in matching
    ensures (forall rows | IsTop(matching, rows, MAX_DEVICE_CANDIDATES) :: best in rows)
            <==> |AtOrAfter(matching, best)| < MAX_DEVICE_CANDIDATES
  {
    if |AtOrAfter(matching, best)| >= MAX_DEVICE_CANDIDATES {
      var rows := AnswerWithout(matching, best, MAX_DEVICE_CANDIDATES);
    } else {
      forall rows | IsTop(matching, rows, MAX_DEVICE_CANDIDATES) ensures best in rows {
        if best !in rows {
          assert matching == (matching - {best}) + {best};
          SetOfSeqSize(rows, matching - {best});
          SetOfSeqSize(rows, AtOrAfter(matching, best));
        }
      }
    }
  }

  /** The clicks of a set of rows, in some order. */
  lemma ListOf(rows: set<Row>) returns (clicks: seq<Click>)
    ensures Lists(clicks, rows)
  {
    if rows == {} {
      clicks := [];
    } else {
      var r :| r in rows;
      var rest := ListOf(rows - {r});
      clicks := [ToClick(r)] + rest;
      forall o | o in rows ensures ToClick(o) in clicks {
        if o == r { assert clicks[0] == ToClick(r); } else { assert ToClick(o) in rest; }
      }
      forall c | c in clicks ensures exists o | o in rows :: ToClick(o) == c {
        if c != ToClick(r) {
          var o :| o in rows - {r} && ToClick(o) == c;
          assert o in rows;
        }
      }
    }
  }

  ghost predicate Loads(table: set<Row>, app: nat, install: Install, windowDays: int, referrerClickId: Option<nat>,
                        rows: seq<Row>, loaded: seq<Click>)
  {
    && IsDeviceAnswer(table, app, install.at, windowDays, install.deviceHash, rows)
    && Lists(loaded, LoadedRows(table, app, install.at, windowDays, IdsToLookUp(install, referrerClickId), rows))
  }

  /** No contender the device tier would choose has fifty other clicks of the device, bots included, at least as new. */
  ghost predicate WithinLimit(table: set<Row>, app: nat, install: Install, windowDays: int) {
    forall r | IsNewestContender(table, r, app, install, windowDays) ::
      |Rivals(table, r, app, install, windowDays)| < 50
  }

  /** The other clicks of the device in the window, bots included, that are at least as new as the row. */
  ghost function Rivals(table: set<Row>, r: Row, app: nat, install: Install, windowDays: int): set<Row> {
    set o | o in table && o != r && o.app == app && o.hash == install.deviceHash && o.at >= r.at
            && 0 <= install.at - o.at <= windowDays * 86_400_000_000
  }

  lemma RivalsAre(table: set<Row>, r: Row, app: nat, install: Install, windowDays: int)
    requires install.deviceHash.Some?
    ensures Rivals(table, r, app, install, windowDays)
            == AtOrAfter(DeviceRows(table, app, install.at, windowDays, install.deviceHash.value), r)
  {
  }

  lemma ContenderIsDeviceRow(table: set<Row>, r: Row, app: nat, install: Install, windowDays: int)
    requires IsNewestContender(table, r, app, install, windowDays)
    ensures install.deviceHash.Some? && r in DeviceRows(table, app, install.at, windowDays, install.deviceHash.value)
  {
  }

  /**
    Whatever the database returns, deciding over the loaded clicks equals deciding over every click of the
    app, exactly when an id decides the matter or the winner is within the limit.
   */
  lemma EveryLoadAgreesIff(table: set<Row>, app: nat, install: Install, windowDays: int, referrerClickId: Option<nat>,
                           all: seq<Click>)
    requires UniqueTable(table) && Lists(all, AppRows(table, app))
    ensures (forall rows, loaded | Loads(table, app, install, windowDays, referrerClickId, rows, loaded) ::
               SameAnswer(Attribute(install, loaded, windowDays, referrerClickId, false),
                          Attribute(install, all, windowDays, referrerClickId, false)))
            <==> (ReachesDeviceTier(table, app, install, windowDays, referrerClickId) ==>
                  WithinLimit(table, app, install, windowDays))
  {
    if ReachesDeviceTier(table, app, install, windowDays, referrerClickId) ==>
      WithinLimit(table, app, install, windowDays) {
      forall rows, loaded | Loads(table, app, install, windowDays, referrerClickId, rows, loaded)
        ensures SameAnswer(Attribute(install, loaded, windowDays, referrerClickId, false),
                           Attribute(install, all, windowDays, referrerClickId, false))
      {
        LoadWithinLimit(table, app, install, windowDays, referrerClickId, rows, loaded, all);
      }
    } else {
      var r :| IsNewestContender(table, r, app, install, windowDays)
               && |Rivals(table, r, app, install, windowDays)| >= 50;
      ContenderIsDeviceRow(table, r, app, install, windowDays);
      RivalsAre(table, r, app, install, windowDays);
      var rows, loaded := LoadBeyondLimit(table, app, install, windowDays, referrerClickId, all, r);
      assert Loads(table, app, install, windowDays, referrerClickId, rows, loaded);
    }
  }

  lemma LoadWithinLimit(table: set<Row>, app: nat, install: Install, windowDays: int, referrerClickId: Option<nat>,
                        rows: seq<Row>, loaded: seq<Click>, all: seq<Click>)
    requires UniqueTable(table) && Lists(all, AppRows(table, app))
    requires Loads(table, app, install, windowDays, referrerClickId, rows, loaded)
    requires ReachesDeviceTier(table, app, install, windowDays, referrerClickId) ==>
               WithinLimit(table, app, install, windowDays)
    ensures SameAnswer(Attribute(install, loaded, windowDays, referrerClickId, false),
                       Attribute(install, all, windowDays, referrerClickId, false))
  {
    LoadedAgreesIff(table, app, install, windowDays, referrerClickId, rows, loaded, all);
    if ReachesDeviceTier(table, app, install, windowDays, referrerClickId) {
      forall r | IsNewestContender(table, r, app, install, windowDays) ensures r in rows {
        ContenderIsDeviceRow(table, r, app, install, windowDays);
        RivalsAre(table, r, app, install, windowDays);
        LimitNeverCutsWinnerIff(DeviceRows(table, app, install.at, windowDays, install.deviceHash.value), r);
      }
    }
  }

  lemma LoadBeyondLimit(table: set<Row>, app: nat, install: Install, windowDays: int, referrerClickId: Option<nat>,
                        all: seq<Click>, r: Row) returns (rows: seq<Row>, loaded: seq<Click>)
    requires UniqueTable(table) && Lists(all, AppRows(table, app))
    requires ReachesDeviceTier(table, app, install, windowDays, referrerClickId)
    requires IsNewestContender(table, r, app, install, windowDays) && install.deviceHash.Some?
    requires |AtOrAfter(DeviceRows(table, app, install.at, windowDays, install.deviceHash.value), r)|
             >= MAX_DEVICE_CANDIDATES
    ensures Loads(table, app, install, windowDays, referrerClickId, rows, loaded)
    ensures !SameAnswer(Attribute(install, loaded, windowDays, referrerClickId, false),
                        Attribute(install, all, windowDays, referrerClickId, false))
  {
    ContenderIsDeviceRow(table, r, app, install, windowDays);
    rows := AnswerWithout(DeviceRows(table, app, install.at, windowDays, install.deviceHash.value), r,
                          MAX_DEVICE_CANDIDATES);
    loaded := ListOf(LoadedRows(table, app, install.at, windowDays, IdsToLookUp(install, referrerClickId), rows));
    LoadedAgreesIff(table, app, install, windowDays, referrerClickId, rows, loaded, all);
  }

  /** The row could decide: of the app, not a bot's, and at most the window before the install. */
  ghost predicate InPlay(r: Row, table: set<Row>, app: nat, install: Install, windowDays: int) {
    r in table && r.app == app && !r.isBot && 0 <= install.at - r.at <= windowDays * 86_400_000_000
  }

  /**
    Last click wins over the whole table, in its own columns: whatever the database returned within the
    limit, the click decided on is a row in play; a row in play that the referrer names decides, else one
    the app names, else of the device's rows in play the one with the latest time and then the highest id.
   */
  lemma LastRowWins(table: set<Row>, app: nat, install: Install, windowDays: int, referrerClickId: Option<nat>,
                    rows: seq<Row>, loaded: seq<Click>)
    requires UniqueTable(table) && Loads(table, app, install, windowDays, referrerClickId, rows, loaded)
    requires ReachesDeviceTier(table, app, install, windowDays, referrerClickId) ==>
               WithinLimit(table, app, install, windowDays)
    ensures var d := Attribute(install, loaded, windowDays, referrerClickId, false);
            if d.click.None? then
              && d.how == Organic
              && forall o | InPlay(o, table, app, install, windowDays) ::
                   && referrerClickId != Some(o.id) && install.clickId != Some(o.id)
                   && (o.hash.Some? && o.hash != Some("") ==> o.hash != install.deviceHash)
            else exists r :: InPlay(r, table, app, install, windowDays)
                             && Chosen(table, app, install, windowDays, referrerClickId, d, r)
  {
    var all := ListOf(AppRows(table, app));
    LoadWithinLimit(table, app, install, windowDays, referrerClickId, rows, loaded, all);
    LastClickWins(install, all, windowDays, referrerClickId, false);
    var d := Attribute(install, all, windowDays, referrerClickId, false);
    InPlayIsUsable(table, app, install, windowDays, all);
    if d.click.Some? {
      var r :| r in AppRows(table, app) && ToClick(r) == d.click.value;
      assert InPlay(r, table, app, install, windowDays);
      assert Chosen(table, app, install, windowDays, referrerClickId, d, r);
    }
  }

  lemma InPlayIsUsable(table: set<Row>, app: nat, install: Install, windowDays: int, all: seq<Click>)
    requires Lists(all, AppRows(table, app))
    ensures forall o | InPlay(o, table, app, install, windowDays) ::
              Usable(ToClick(o), all, install, windowDays, false)
  {
    forall o | InPlay(o, table, app, install, windowDays) ensures o in AppRows(table, app) { }
  }

  /** The row is what the decision carries, and is the one its tier should choose. */
  ghost predicate Chosen(table: set<Row>, app: nat, install: Install, windowDays: int, referrerClickId: Option<nat>,
                         d: Decision, r: Row)
  {
    && d.click == Some(Click(r.id, r.at, if r.hash == Some("") then None else r.hash, r.isBot, r.details))
    && (d.how == Referrer <==> referrerClickId == Some(r.id))
    && (d.how != Referrer ==>
          forall o | InPlay(o, table, app, install, windowDays) :: referrerClickId != Some(o.id))
    && (d.how == ClickId ==> install.clickId == Some(r.id))
    && (d.how == DeviceMatch ==>
          && r.hash == install.deviceHash && r.hash.Some? && r.hash != Some("")
          && forall o | InPlay(o, table, app, install, windowDays) ::
               && install.clickId != Some(o.id)
               && (o.hash == r.hash ==> o.at < r.at || (o.at == r.at && o.id <= r.id)))
    && d.how in {Referrer, ClickId, DeviceMatch}
  }

  // --- the explanation is not refined ---

  ghost predicate AnyHuman(clicks: seq<Click>) { exists c | c in clicks :: !c.isBot }

  /** A loaded click that is not a bot's decides the matter, so an organic decision means none was loaded. */
  lemma OrganicLoadsNoHuman(table: set<Row>, app: nat, install: Install, windowDays: int, referrerClickId: Option<nat>,
                            rows: seq<Row>, loaded: seq<Click>)
    requires Loads(table, app, install, windowDays, referrerClickId, rows, loaded) && install.deviceHash != Some("")
    requires Attribute(install, loaded, windowDays, referrerClickId, false).how == Organic
    ensures !AnyHuman(loaded)
  {
    AttributeDecides(install, loaded, windowDays, referrerClickId, false);
    var eligible := EligibleSet(loaded, install, windowDays, false);
    forall c | c in loaded && !c.isBot
      ensures c in eligible && (Some(c.id) == referrerClickId || Some(c.id) == install.clickId || Matches(c, install))
    {
      var ids := IdsToLookUp(install, referrerClickId);
      var r :| r in LoadedRows(table, app, install.at, windowDays, ids, rows) && ToClick(r) == c;
      HumanDecides(table, app, install, windowDays, referrerClickId, rows, r);
    }
  }

  lemma HumanDecides(table: set<Row>, app: nat, install: Install, windowDays: int, referrerClickId: Option<nat>,
                     rows: seq<Row>, r: Row)
    requires IsDeviceAnswer(table, app, install.at, windowDays, install.deviceHash, rows)
             && install.deviceHash != Some("")
    requires r in LoadedRows(table, app, install.at, windowDays, IdsToLookUp(install, referrerClickId), rows)
    ensures WithinWindow(ToClick(r), install, windowDays * DAY)
    ensures Some(r.id) == referrerClickId || Some(r.id) == install.clickId || Matches(ToClick(r), install)
  {
    if r in rows { assert InRange(r, app, install.at, windowDays) && r.hash == install.deviceHash; }
  }

  /** Some of the app's rows, among them all that are in the window. */
  ghost predicate CoversWindow(table: set<Row>, app: nat, install: Install, windowDays: int, shown: set<Row>) {
    shown <= AppRows(table, app) && forall r | r in table && InRange(r, app, install.at, windowDays) :: r in shown
  }

  /**
    When both decisions are organic the reasons agree exactly when some non-bot click was loaded or none
    exists; and as an organic decision never has one loaded, exactly when there is no non-bot click at
    all. Every other organic install is explained as "no clicks recorded". The clicks compared with are the
    app's, or only those in the window, or any in between.
   */
  lemma ReasonsAgreeIff(table: set<Row>, app: nat, install: Install, windowDays: int, referrerClickId: Option<nat>,
                        rows: seq<Row>, loaded: seq<Click>, shown: set<Row>, all: seq<Click>)
    requires Loads(table, app, install, windowDays, referrerClickId, rows, loaded)
    requires CoversWindow(table, app, install, windowDays, shown) && Lists(all, shown)
    requires var d := Attribute(install, loaded, windowDays, referrerClickId, false);
             var e := Attribute(install, all, windowDays, referrerClickId, false);
             d.how == Organic && e.how == Organic
    ensures var d := Attribute(install, loaded, windowDays, referrerClickId, false);
            var e := Attribute(install, all, windowDays, referrerClickId, false);
            && (d.reason == e.reason <==> (AnyHuman(all) ==> AnyHuman(loaded)))
            && (install.deviceHash != Some("") ==>
                  d.reason == NoClicksRecorded && (d.reason == e.reason <==> !AnyHuman(all)))
  {
    OrganicReason(install, loaded, windowDays, referrerClickId);
    OrganicReason(install, all, windowDays, referrerClickId);
    LoadedHumansExist(table, app, install, windowDays, referrerClickId, rows, loaded, shown, all);
    if install.deviceHash != Some("") {
      OrganicLoadsNoHuman(table, app, install, windowDays, referrerClickId, rows, loaded);
    }
  }

  lemma LoadedHumansExist(table: set<Row>, app: nat, install: Install, windowDays: int, referrerClickId: Option<nat>,
                          rows: seq<Row>, loaded: seq<Click>, shown: set<Row>, all: seq<Click>)
    requires Loads(table, app, install, windowDays, referrerClickId, rows, loaded)
    requires CoversWindow(table, app, install, windowDays, shown) && Lists(all, shown)
    ensures AnyHuman(loaded) ==> AnyHuman(all)
  {
    if AnyHuman(loaded) {
      var c :| c in loaded && !c.isBot;
      var ids := IdsToLookUp(install, referrerClickId);
      var r :| r in LoadedRows(table, app, install.at, windowDays, ids, rows) && ToClick(r) == c;
      assert r in table && InRange(r, app, install.at, windowDays);
      assert r in shown && c in all;
    }
  }

  lemma OrganicReason(install: Install, clicks: seq<Click>, windowDays: int, referrerClickId: Option<nat>)
    requires Attribute(install, clicks, windowDays, referrerClickId, false).how == Organic
    ensures Attribute(install, clicks, windowDays, referrerClickId, false).reason
            == if AnyHuman(clicks) then NothingMatched else NoClicksRecorded
  {
    var pool := Pool(clicks, false);
    if pool != [] { assert pool[0] in pool; }
    if AnyHuman(clicks) {
      var c :| c in clicks && !c.isBot;
      assert c in pool;
    }
  }

  /** One click of another device in the window: the database loads nothing, and the recorded click is denied. */
  lemma ReasonMisreportsUnloadedClicks(r: Row, install: Install, windowDays: int)
    requires InRange(r, r.app, install.at, windowDays)
    requires !r.isBot && r.hash != install.deviceHash && install.clickId.None? && install.deviceHash != Some("")
    ensures Loads({r}, r.app, install, windowDays, None, [], []) && Lists([ToClick(r)], AppRows({r}, r.app))
    ensures Attribute(install, [ToClick(r)], windowDays, None, false).reason == NothingMatched
    ensures Attribute(install, [], windowDays, None, false).reason == NoClicksRecorded
  {
    if install.deviceHash.Some? {
      assert DeviceRows({r}, r.app, install.at, windowDays, install.deviceHash.value) == {};
    }
    assert r in {r};
    OtherDevice(install, ToClick(r), windowDays);
  }

  lemma OtherDevice(install: Install, c: Click, windowDays: int)
    requires !c.isBot && install.clickId.None? && !Matches(c, install)
    ensures Attribute(install, [c], windowDays, None, false).how == Organic
    ensures Attribute(install, [c], windowDays, None, false).reason == NothingMatched
  {
    AttributeDecides(install, [c], windowDays, None, false);
    assert c in Pool([c], false);
  }
}
