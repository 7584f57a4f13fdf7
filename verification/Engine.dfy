/** Deterministic last-click attribution: a pure decision over candidate clicks. Times are microseconds. */
module Engine {
  import opened Common

  const DAY: int := 86_400_000_000
  const CLICK_INJECTION_THRESHOLD: int := 10_000_000

  datatype Method = Referrer | ClickId | DeviceMatch | Organic | Probabilistic

  function Fidelity(m: Method): (f: nat)
    ensures f <= 4
  {
    match m
    case Referrer => 4
    case ClickId => 3
    case DeviceMatch => 2
    case Probabilistic => 1
    case Organic => 0
  }

  predicate ShouldSupersede(existing: Method, incoming: Method) { Fidelity(incoming) > Fidelity(existing) }

  /** `details` stands for the campaign, link, deep link and sub parameters that ride along. */
  datatype Click = Click(id: nat, at: int, deviceHash: Option<string>, isBot: bool, details: nat)

  datatype Install = Install(at: int, clickId: Option<nat>, deviceHash: Option<string>)

  datatype Reason = MatchedReferrer | MatchedClickId | MatchedDevice | NothingMatched | NoClicksRecorded

  datatype Decision = Decision(how: Method, click: Option<Click>, windowDays: int, reason: Reason,
                               gap: Option<int>, suspectedInjection: bool)

  predicate WithinWindow(c: Click, install: Install, window: int) {
    if c.at > install.at then false else install.at - c.at <= window
  }

  function Pool(candidates: seq<Click>, includeBots: bool): (r: seq<Click>)
    ensures forall c :: c in r <==> c in candidates && (includeBots || !c.isBot)
  {
    if candidates == [] then []
    else (if includeBots || !candidates[0].isBot then [candidates[0]] else []) + Pool(candidates[1..], includeBots)
  }

  function Eligible(pool: seq<Click>, install: Install, window: int): (r: seq<Click>)
    ensures forall c :: c in r <==> c in pool && WithinWindow(c, install, window)
  {
    if pool == [] then []
    else (if WithinWindow(pool[0], install, window) then [pool[0]] else []) + Eligible(pool[1..], install, window)
  }

  function FirstWithId(clicks: seq<Click>, id: Option<nat>): (r: Option<Click>)
    ensures r.Some? ==> id.Some? && r.value in clicks && r.value.id == id.value
    ensures r.None? ==> forall c | c in clicks :: Some(c.id) != id
  {
    if clicks == [] then None
    else if Some(clicks[0].id) == id then Some(clicks[0])
    else FirstWithId(clicks[1..], id)
  }

  function SameDevice(clicks: seq<Click>, hash: Option<string>): (r: seq<Click>)
    ensures forall c :: c in r <==> c in clicks && hash.Some? && c.deviceHash == hash
  {
    if clicks == [] then []
    else (if hash.Some? && clicks[0].deviceHash == hash then [clicks[0]] else []) + SameDevice(clicks[1..], hash)
  }

  /** Later by time, then by id. */
  predicate Newer(a: Click, b: Click) { a.at > b.at || (a.at == b.at && a.id > b.id) }

  function Latest(clicks: seq<Click>): (r: Click)
    requires clicks != []
    ensures r in clicks && forall c | c in clicks :: !Newer(c, r)
  {
    if |clicks| == 1 then clicks[0]
    else
      var rest := Latest(clicks[1..]);
      assert forall c | c in clicks :: c == clicks[0] || c in clicks[1..];
      if Newer(rest, clicks[0]) then rest else clicks[0]
  }

  function Decide(how: Method, click: Click, install: Install, windowDays: int, reason: Reason): Decision {
    var gap := install.at - click.at;
    Decision(how, Some(click), windowDays, reason, Some(gap), gap < CLICK_INJECTION_THRESHOLD)
  }

  function Attribute(install: Install, candidates: seq<Click>, windowDays: int,
                     referrerClickId: Option<nat>, includeBots: bool): Decision
  {
    var pool := Pool(candidates, includeBots);
    var eligible := Eligible(pool, install, windowDays * DAY);
    var byReferrer := FirstWithId(eligible, referrerClickId);
    if byReferrer.Some? then Decide(Referrer, byReferrer.value, install, windowDays, MatchedReferrer)
    else
      var byClick := FirstWithId(eligible, install.clickId);
      if byClick.Some? then Decide(ClickId, byClick.value, install, windowDays, MatchedClickId)
      else
        var matches := SameDevice(eligible, install.deviceHash);
        if matches != [] then Decide(DeviceMatch, Latest(matches), install, windowDays, MatchedDevice)
        else Decision(Organic, None, windowDays, if pool != [] then NothingMatched else NoClicksRecorded, None, false)
  }

  // --- what the decision means, independent of the order of candidates ---

  ghost function EligibleSet(candidates: seq<Click>, install: Install, windowDays: int, includeBots: bool): set<Click> {
    set c | c in candidates && (includeBots || !c.isBot) && WithinWindow(c, install, windowDays * DAY)
  }

  ghost predicate HasId(clicks: set<Click>, id: Option<nat>) { exists c | c in clicks :: Some(c.id) == id }

  ghost predicate Matches(c: Click, install: Install) {
    install.deviceHash.Some? && c.deviceHash == install.deviceHash
  }

  /** The strict precedence of tiers, and the last click inside the device tier. */
  ghost predicate Decides(how: Method, click: Option<Click>, eligible: set<Click>,
                          install: Install, referrerClickId: Option<nat>)
  {
    if HasId(eligible, referrerClickId) then
      how == Referrer && click.Some? && click.value in eligible && Some(click.value.id) == referrerClickId
    else if HasId(eligible, install.clickId) then
      how == ClickId && click.Some? && click.value in eligible && Some(click.value.id) == install.clickId
    else if exists c | c in eligible :: Matches(c, install) then
      && how == DeviceMatch && click.Some? && click.value in eligible && Matches(click.value, install)
      && forall c | c in eligible && Matches(c, install) :: !Newer(c, click.value)
    else
      how == Organic && click.None?
  }

  lemma AttributeDecides(install: Install, candidates: seq<Click>, windowDays: int,
                         referrerClickId: Option<nat>, includeBots: bool)
    ensures var d := Attribute(install, candidates, windowDays, referrerClickId, includeBots);
            Decides(d.how, d.click, EligibleSet(candidates, install, windowDays, includeBots), install, referrerClickId)
  {
    var eligible := Eligible(Pool(candidates, includeBots), install, windowDays * DAY);
    var set_ := EligibleSet(candidates, install, windowDays, includeBots);
    assert forall c :: c in eligible <==> c in set_;
    var matches := SameDevice(eligible, install.deviceHash);
    if matches != [] {
      assert matches[0] in matches && Matches(matches[0], install);
    }
  }

  /** A click that may decide: human, unless bots are asked for, and at most the window before the install. */
  ghost predicate Usable(c: Click, candidates: seq<Click>, install: Install, windowDays: int, includeBots: bool) {
    c in candidates && (c.isBot ==> includeBots) && 0 <= install.at - c.at <= windowDays * 86_400_000_000
  }

  ghost predicate NoneNamed(id: Option<nat>, candidates: seq<Click>, install: Install, windowDays: int,
                            includeBots: bool)
  {
    forall c | Usable(c, candidates, install, windowDays, includeBots) :: id != Some(c.id)
  }

  /**
    Last click wins, in the fields themselves: a usable click the referrer names; else one the app names;
    else, of the usable clicks of the same device, the one with the latest time and of those the highest id;
    else nothing, when there is none of these.
   */
  lemma LastClickWins(install: Install, candidates: seq<Click>, windowDays: int,
                      referrerClickId: Option<nat>, includeBots: bool)
    ensures var d := Attribute(install, candidates, windowDays, referrerClickId, includeBots);
            && (d.click.Some? ==> Usable(d.click.value, candidates, install, windowDays, includeBots))
            && (d.how == Referrer <==> d.click.Some? && referrerClickId == Some(d.click.value.id))
            && (d.how != Referrer ==> NoneNamed(referrerClickId, candidates, install, windowDays, includeBots))
            && (d.how == ClickId ==> d.click.Some? && install.clickId == Some(d.click.value.id))
            && (d.how == DeviceMatch || d.how == Organic ==>
                  NoneNamed(install.clickId, candidates, install, windowDays, includeBots))
            && (d.how == DeviceMatch ==>
                  && d.click.Some? && install.deviceHash.Some? && d.click.value.deviceHash == install.deviceHash
                  && forall c | Usable(c, candidates, install, windowDays, includeBots)
                                && c.deviceHash == install.deviceHash ::
                       c.at < d.click.value.at || (c.at == d.click.value.at && c.id <= d.click.value.id))
            && (d.how == Organic ==>
                  && d.click.None?
                  && forall c | Usable(c, candidates, install, windowDays, includeBots) && c.deviceHash.Some? ::
                       c.deviceHash != install.deviceHash)
            && d.how != Probabilistic
  {
    AttributeDecides(install, candidates, windowDays, referrerClickId, includeBots);
    var eligible := EligibleSet(candidates, install, windowDays, includeBots);
    forall c | Usable(c, candidates, install, windowDays, includeBots) ensures c in eligible { }
  }

  /** A decision reports its window, its reason and, with a click, the time since it, suspect under ten seconds. */
  lemma DecisionReports(install: Install, candidates: seq<Click>, windowDays: int,
                        referrerClickId: Option<nat>, includeBots: bool)
    ensures var d := Attribute(install, candidates, windowDays, referrerClickId, includeBots);
            && d.windowDays == windowDays
            && d.gap == (if d.click.Some? then Some(install.at - d.click.value.at) else None)
            && (d.suspectedInjection <==> d.click.Some? && install.at - d.click.value.at < 10_000_000)
            && (d.reason == MatchedReferrer <==> d.how == Referrer)
            && (d.reason == MatchedClickId <==> d.how == ClickId)
            && (d.reason == MatchedDevice <==> d.how == DeviceMatch)
            && (d.reason == NothingMatched
                <==> d.how == Organic && exists c | c in candidates :: c.isBot ==> includeBots)
  {
    var pool := Pool(candidates, includeBots);
    if pool != [] { assert pool[0] in pool && pool[0] in candidates; }
  }

  ghost predicate UniqueIds(clicks: set<Click>) {
    forall a, b | a in clicks && b in clicks && a.id == b.id :: a == b
  }

  /** With unique click ids the tiers leave no choice. */
  lemma DecidesIsUnique(eligible: set<Click>, install: Install, referrerClickId: Option<nat>,
                        m1: Method, c1: Option<Click>, m2: Method, c2: Option<Click>)
    requires UniqueIds(eligible)
    requires Decides(m1, c1, eligible, install, referrerClickId)
    requires Decides(m2, c2, eligible, install, referrerClickId)
    ensures m1 == m2 && c1 == c2
  {
    if m1 == DeviceMatch {
      assert !Newer(c1.value, c2.value) && !Newer(c2.value, c1.value);
    }
  }

  /** The same clicks in any order, and with any repetition, give the same method and click. */
  lemma OrderDoesNotMatter(install: Install, a: seq<Click>, b: seq<Click>, windowDays: int,
                           referrerClickId: Option<nat>, includeBots: bool)
    requires forall c :: c in a <==> c in b
    requires UniqueIds(set c | c in a)
    ensures var d, e := Attribute(install, a, windowDays, referrerClickId, includeBots),
                        Attribute(install, b, windowDays, referrerClickId, includeBots);
            d.how == e.how && d.click == e.click
  {
    AttributeDecides(install, a, windowDays, referrerClickId, includeBots);
    AttributeDecides(install, b, windowDays, referrerClickId, includeBots);
    assert EligibleSet(a, install, windowDays, includeBots) == EligibleSet(b, install, windowDays, includeBots);
    var d := Attribute(install, a, windowDays, referrerClickId, includeBots);
    var e := Attribute(install, b, windowDays, referrerClickId, includeBots);
    DecidesIsUnique(EligibleSet(a, install, windowDays, includeBots), install, referrerClickId,
                    d.how, d.click, e.how, e.click);
  }
}
