/**
  The tracker's in-process link cache against the tables it mirrors. A table change and the
  notification it sends are one transaction; a reload and its query are one step.
 */
module LinkCache {
  import opened Common

  type Code = string
  type AppId = nat

  datatype Link = Link(app: AppId, target: string, enabled: bool)

  datatype Tables = Tables(links: map<Code, Link>, apps: map<AppId, bool>, deep: map<(AppId, string), string>)

  /** A link is live when it and its app are both active. */
  predicate IsLive(t: Tables, l: Link) { l.enabled && l.app in t.apps && t.apps[l.app] }

  /** What the cache should hold for a code. */
  function Desired(t: Tables, c: Code): Option<Link> {
    if c in t.links && IsLive(t, t.links[c]) then Some(t.links[c]) else None
  }

  function Held(cache: map<Code, Link>, c: Code): Option<Link> { if c in cache then Some(cache[c]) else None }

  function ActiveLinks(t: Tables): map<Code, Link> { map c | c in t.links && IsLive(t, t.links[c]) :: t.links[c] }

  function ActiveDeep(t: Tables): map<(AppId, string), string> {
    map k | k in t.deep && k.0 in t.apps && t.apps[k.0] :: t.deep[k]
  }

  // --- the handlers, as functions ---

  function OneReloaded(cache: map<Code, Link>, t: Tables, c: Code): map<Code, Link> {
    if Desired(t, c).Some? then cache[c := t.links[c]] else cache - {c}
  }

  /** Drop what is cached for the app, then take its live links from the table. */
  function AppReloaded(cache: map<Code, Link>, t: Tables, a: AppId): map<Code, Link> {
    (map c | c in cache && cache[c].app != a :: cache[c])
      + (map c | c in t.links && t.links[c].app == a && IsLive(t, t.links[c]) :: t.links[c])
  }

  /** All of an app's registered destinations, whatever the app's status. */
  function DeepReloaded(deep: map<(AppId, string), string>, t: Tables, a: AppId): map<(AppId, string), string> {
    (map k | k in deep && k.0 != a :: deep[k]) + (map k | k in t.deep && k.0 == a :: t.deep[k])
  }

  class Cache {
    var links: map<Code, Link>
    var deep: map<(AppId, string), string>
    var missing: map<Code, int>

    /** One changed code, from its row if it has one. */
    method ReloadOne(t: Tables, c: Code)
      modifies this`links
      ensures links == OneReloaded(old(links), t, c)
    {
      if c !in t.links || t.links[c].app !in t.apps {
        links := links - {c};
      } else if IsLive(t, t.links[c]) {
        links := links[c := t.links[c]];
      } else {
        links := links - {c};
      }
    }

    /** Every link of one app. `rows` is the query's result, in any order. */
    method ReloadAppLinks(t: Tables, a: AppId, rows: seq<Code>)
      requires forall c :: c in rows <==> c in t.links && t.links[c].app == a && a in t.apps
      modifies this`links
      ensures links == AppReloaded(old(links), t, a)
    {
      var remaining := map c | c in links && links[c].app != a :: links[c];
      ghost var kept := remaining;
      for i := 0 to |rows|
        invariant forall c :: c in remaining <==> c in kept || (c in rows[..i] && IsLive(t, t.links[c]))
        invariant forall c | c in remaining ::
                    remaining[c] == if c in rows[..i] && IsLive(t, t.links[c]) then t.links[c] else kept[c]
      {
        var c := rows[i];
        assert rows[..i + 1] == rows[..i] + [c] && c in rows;
        if IsLive(t, t.links[c]) { remaining := remaining[c := t.links[c]]; }
      }
      assert rows[..|rows|] == rows;
      links := remaining;
    }

    /** Everything, wholesale; negative entries are forgotten. `rows` is the result of the query for active links. */
    method Resync(t: Tables, rows: seq<Code>)
      requires forall c :: c in rows <==> c in t.links && IsLive(t, t.links[c])
      modifies this
      ensures links == ActiveLinks(t) && deep == ActiveDeep(t) && missing == map[]
    {
      var loaded: map<Code, Link> := map[];
      for i := 0 to |rows|
        invariant forall c :: c in loaded <==> c in rows[..i]
        invariant forall c | c in loaded :: c in t.links && loaded[c] == t.links[c]
      {
        var c := rows[i];
        assert rows[..i + 1] == rows[..i] + [c] && c in rows;
        if IsLive(t, t.links[c]) { loaded := loaded[c := t.links[c]]; }
      }
      assert rows[..|rows|] == rows;
      links, deep, missing := loaded, ActiveDeep(t), map[];
    }

    /**
      What a redirect is answered: the cached link, else nothing while a negative entry lives, else one
      query. The answer is right unless the cache or a negative entry is out of date for this code.
     */
    method Find(t: Tables, c: Code, now: int, ttl: nat) returns (answer: Option<Link>)
      modifies this`links, this`missing
      ensures answer == if c in old(links) then Some(old(links)[c])
                        else if c in old(missing) && now <= old(missing)[c] then None else Desired(t, c)
      ensures Held(old(links), c) == Desired(t, c) ==> answer == Desired(t, c)
      ensures Held(links, c) == answer && forall d | d != c :: Held(links, d) == Held(old(links), d)
    {
      if c in links { return Some(links[c]); }
      if c in missing {
        if now <= missing[c] { return None; }
        missing := missing - {c};
      }
      answer := Desired(t, c);
      if answer.Some? { links := links[c := answer.value]; } else { missing := missing[c := now + ttl]; }
    }
  }

  /** The app a code belongs to: the table's, or for a deleted code the cached one. */
  predicate BelongsTo(cache: map<Code, Link>, t: Tables, d: Code, a: AppId) {
    if d in t.links then t.links[d].app == a else d in cache && cache[d].app == a
  }

  /** Each handler sets exactly the codes it covers to what they should be, and leaves the rest alone. */
  lemma HandlersAreExact(cache: map<Code, Link>, t: Tables, c: Code, a: AppId, d: Code)
    requires d in cache && d in t.links ==> cache[d].app == t.links[d].app
    ensures Held(OneReloaded(cache, t, c), d) == if d == c then Desired(t, d) else Held(cache, d)
    ensures Held(AppReloaded(cache, t, a), d) == if BelongsTo(cache, t, d, a) then Desired(t, d) else Held(cache, d)
    ensures Held(ActiveLinks(t), d) == Desired(t, d)
  {
  }

  // --- runs ---

  datatype Note = LinkChanged(code: Code) | AppChanged(app: AppId) | DeepChanged(app: AppId)

  datatype State = State(t: Tables, links: map<Code, Link>, deep: map<(AppId, string), string>, pending: seq<Note>)

  datatype Action =
    | EditLink(code: Code, to: Option<Link>)
    | EditApp(app: AppId, active: bool)
    | EditDeep(app: AppId, name: string, destination: Option<string>)
    | Handle(i: nat)                       // in any order
    | Lose(i: nat)
    | Resync
    | LoadMissing(code: Code)

  function Step(s: State, a: Action): State {
    match a
    case EditLink(c, to) =>
      s.(t := s.t.(links := if to.Some? then s.t.links[c := to.value] else s.t.links - {c}),
         pending := s.pending + [LinkChanged(c)])
    case EditApp(app, active) =>
      s.(t := s.t.(apps := s.t.apps[app := active]), pending := s.pending + [AppChanged(app)])
    case EditDeep(app, name, to) =>
      s.(t := s.t.(deep := if to.Some? then s.t.deep[(app, name) := to.value] else s.t.deep - {(app, name)}),
         pending := s.pending + [DeepChanged(app)])
    case Handle(i) =>
      if i < |s.pending| then Handled(s.(pending := s.pending[..i] + s.pending[i + 1..]), s.pending[i]) else s
    case Lose(i) => if i < |s.pending| then s.(pending := s.pending[..i] + s.pending[i + 1..]) else s
    case Resync => s.(links := ActiveLinks(s.t), deep := ActiveDeep(s.t))
    case LoadMissing(c) => if c in s.links then s else s.(links := OneReloaded(s.links, s.t, c))
  }

  function Handled(s: State, n: Note): State {
    match n
    case LinkChanged(c) => s.(links := OneReloaded(s.links, s.t, c))
    case AppChanged(a) => s.(links := AppReloaded(s.links, s.t, a))
    case DeepChanged(a) => s.(deep := DeepReloaded(s.deep, s.t, a))
  }

  function Run(s: State, acts: seq<Action>): State {
    if acts == [] then s else Step(Run(s, acts[..|acts| - 1]), acts[|acts| - 1])
  }

  /** A code the cache has wrong has a notification still to come. */
  ghost predicate Covered(s: State, c: Code) {
    || Held(s.links, c) == Desired(s.t, c)
    || LinkChanged(c) in s.pending
    || (c in s.t.links && AppChanged(s.t.links[c].app) in s.pending
        && (c in s.links ==> s.links[c].app == s.t.links[c].app))
  }

  ghost predicate Inv(s: State) { forall c {:trigger Covered(s, c)} :: Covered(s, c) }

  lemma Removed(pending: seq<Note>, i: nat, n: Note)
    requires i < |pending| && n in pending && n != pending[i]
    ensures n in pending[..i] + pending[i + 1..]
  {
    var j :| 0 <= j < |pending| && pending[j] == n;
    if j < i { assert pending[..i][j] == n; } else { assert pending[i + 1..][j - i - 1] == n; }
  }

  lemma HandleKeeps(s: State, i: nat)
    requires Inv(s) && i < |s.pending|
    ensures Inv(Step(s, Handle(i)))
  {
    var s', n := Step(s, Handle(i)), s.pending[i];
    forall c ensures Covered(s', c) {
      assert Covered(s, c);
      if c in s.links && c in s.t.links ==> s.links[c].app == s.t.links[c].app {
        HandlersAreExact(s.links, s.t, if n.LinkChanged? then n.code else c, if n.AppChanged? then n.app else 0, c);
      }
      if LinkChanged(c) in s.pending && n != LinkChanged(c) { Removed(s.pending, i, LinkChanged(c)); }
      if c in s.t.links && AppChanged(s.t.links[c].app) in s.pending && n != AppChanged(s.t.links[c].app) {
        Removed(s.pending, i, AppChanged(s.t.links[c].app));
      }
    }
  }

  lemma StepKeeps(s: State, a: Action)
    requires Inv(s) && !a.Lose?
    ensures Inv(Step(s, a))
  {
    var s' := Step(s, a);
    if a.Handle? {
      if a.i < |s.pending| { HandleKeeps(s, a.i); }
    } else {
      forall c ensures Covered(s', c) { assert Covered(s, c); }
    }
  }

  lemma {:induction false} RunKeeps(s: State, acts: seq<Action>)
    requires Inv(s) && forall a | a in acts :: !a.Lose?
    ensures Inv(Run(s, acts))
  {
    if acts != [] {
      var init, a := acts[..|acts| - 1], acts[|acts| - 1];
      assert a in acts && forall x | x in init :: x in acts;
      RunKeeps(s, init);
      StepKeeps(Run(s, init), a);
    }
  }

  /** A resync restores agreement from any cache and any tables, whatever was lost before it. */
  lemma ResyncRestores(s: State)
    ensures Inv(Step(s, Resync)) && Step(s, Resync).links == ActiveLinks(s.t)
  {
    var s' := Step(s, Resync);
    forall c ensures Covered(s', c) { }
  }

  /**
    From any state at all: after one resync, once every notification since has been handled, the cache
    is exactly the active links of active apps.
   */
  lemma HandledMeansExact(s: State, acts: seq<Action>)
    requires forall a | a in acts :: !a.Lose?
    ensures var s' := Run(Step(s, Resync), acts); s'.pending == [] ==> s'.links == ActiveLinks(s'.t)
  {
    ResyncRestores(s);
    RunKeeps(Step(s, Resync), acts);
    var s' := Run(Step(s, Resync), acts);
    if s'.pending == [] {
      forall c ensures Held(s'.links, c) == Held(ActiveLinks(s'.t), c) { assert Covered(s', c); }
      assert forall c :: c in s'.links <==> Held(s'.links, c).Some?;
      assert forall c :: c in ActiveLinks(s'.t) <==> Held(ActiveLinks(s'.t), c).Some?;
      forall c | c in s'.links ensures s'.links[c] == ActiveLinks(s'.t)[c] {
        assert Held(s'.links, c) == Held(ActiveLinks(s'.t), c);
      }
    }
  }

  /** A redirect that misses the cache loads the code as the tables have it; a hit changes nothing. */
  lemma MissIsLoaded(s: State, c: Code)
    ensures var s' := Step(s, LoadMissing(c));
            && Held(s'.links, c) == (if c in s.links then Some(s.links[c]) else Desired(s.t, c))
            && forall d | d != c :: Held(s'.links, d) == Held(s.links, d)
  {
  }

  // --- registered destinations follow a weaker rule ---

  /** Reloading an app's destinations agrees with a resync exactly when the app is active or has none. */
  lemma DeepReloadAgreesIff(deep: map<(AppId, string), string>, t: Tables, a: AppId)
    ensures (forall n :: ((a, n) in DeepReloaded(deep, t, a) <==> (a, n) in ActiveDeep(t))
                         && ((a, n) in ActiveDeep(t) ==> DeepReloaded(deep, t, a)[(a, n)] == t.deep[(a, n)]))
            <==> (a in t.apps && t.apps[a]) || forall n :: (a, n) !in t.deep
  {
    var r := DeepReloaded(deep, t, a);
    assert forall n :: (a, n) in r <==> (a, n) in t.deep;
    if !(a in t.apps && t.apps[a]) && exists n :: (a, n) in t.deep {
      var n :| (a, n) in t.deep;
      assert (a, n) in r && (a, n) !in ActiveDeep(t);
    }
  }

  function ActiveApps(t: Tables): set<AppId> { set a | a in t.apps && t.apps[a] }

  /**
    The apps whose destinations are loaded, `acts` after a resync that left `s`: those active then, and those
    reloaded since.
   */
  function Loaded(s: State, acts: seq<Action>): set<AppId> {
    if acts == [] then ActiveApps(s.t)
    else
      var init, a := acts[..|acts| - 1], acts[|acts| - 1];
      var m := Run(s, init);
      if a.Resync? then ActiveApps(m.t)
      else if a.Handle? && a.i < |m.pending| && m.pending[a.i].DeepChanged? then Loaded(s, init) + {m.pending[a.i].app}
      else Loaded(s, init)
  }

  function At(deep: map<(AppId, string), string>, k: (AppId, string)): Option<string> {
    if k in deep then Some(deep[k]) else None
  }

  /**
    A destination the cache has wrong for a loaded app, or has at all for another, has a notification still to
    come.
   */
  ghost predicate DeepCovered(s: State, loaded: set<AppId>, k: (AppId, string)) {
    DeepChanged(k.0) in s.pending || At(s.deep, k) == if k.0 in loaded then At(s.t.deep, k) else None
  }

  ghost predicate DeepInv(s: State, loaded: set<AppId>) {
    forall k {:trigger DeepCovered(s, loaded, k)} :: DeepCovered(s, loaded, k)
  }

  lemma DeepHandleKeeps(s: State, loaded: set<AppId>, i: nat)
    requires DeepInv(s, loaded) && i < |s.pending|
    ensures DeepInv(Step(s, Handle(i)), if s.pending[i].DeepChanged? then loaded + {s.pending[i].app} else loaded)
  {
    var s', n := Step(s, Handle(i)), s.pending[i];
    var loaded' := if n.DeepChanged? then loaded + {n.app} else loaded;
    forall k ensures DeepCovered(s', loaded', k) {
      assert DeepCovered(s, loaded, k);
      if DeepChanged(k.0) in s.pending && n != DeepChanged(k.0) { Removed(s.pending, i, DeepChanged(k.0)); }
    }
  }

  lemma DeepStepKeeps(s: State, loaded: set<AppId>, a: Action)
    requires DeepInv(s, loaded) && !a.Lose? && !a.Handle? && !a.Resync?
    ensures DeepInv(Step(s, a), loaded)
  {
    var s' := Step(s, a);
    forall k ensures DeepCovered(s', loaded, k) { assert DeepCovered(s, loaded, k); }
  }

  lemma DeepResync(s: State)
    ensures DeepInv(Step(s, Resync), ActiveApps(s.t))
  {
    var s' := Step(s, Resync);
    forall k ensures DeepCovered(s', ActiveApps(s.t), k) { }
  }

  lemma {:induction false} DeepRunKeeps(s: State, acts: seq<Action>)
    requires forall a | a in acts :: !a.Lose?
    ensures var s1 := Step(s, Resync); DeepInv(Run(s1, acts), Loaded(s1, acts))
  {
    var s1 := Step(s, Resync);
    if acts == [] {
      DeepResync(s);
    } else {
      var init, a := acts[..|acts| - 1], acts[|acts| - 1];
      assert a in acts && forall x | x in init :: x in acts;
      DeepRunKeeps(s, init);
      var m := Run(s1, init);
      if a.Resync? { DeepResync(m); }
      else if a.Handle? { if a.i < |m.pending| { DeepHandleKeeps(m, Loaded(s1, init), a.i); } }
      else { DeepStepKeeps(m, Loaded(s1, init), a); }
    }
  }

  /**
    From any state: after a resync, once every notification since has been handled, the destinations are
    those of active apps exactly when the apps that have any are loaded just when they are active, that is,
    when none of them was switched on since the last resync without a change to its destinations, nor off.
   */
  lemma DestinationsExactIff(s: State, acts: seq<Action>)
    requires forall a | a in acts :: !a.Lose?
    requires Run(Step(s, Resync), acts).pending == []
    ensures var s1 := Step(s, Resync);
            var s' := Run(s1, acts);
            s'.deep == ActiveDeep(s'.t)
            <==> forall k | k in s'.t.deep :: k.0 in Loaded(s1, acts) <==> k.0 in ActiveApps(s'.t)
  {
    var s1 := Step(s, Resync);
    var s', loaded := Run(s1, acts), Loaded(s1, acts);
    DeepRunKeeps(s, acts);
    forall k ensures At(s'.deep, k) == if k.0 in loaded then At(s'.t.deep, k) else None {
      assert DeepCovered(s', loaded, k);
    }
    DeepEqualIff(s'.deep, s'.t, loaded);
  }

  lemma DeepEqualIff(deep: map<(AppId, string), string>, t: Tables, loaded: set<AppId>)
    requires forall k :: At(deep, k) == if k.0 in loaded then At(t.deep, k) else None
    ensures deep == ActiveDeep(t) <==> forall k | k in t.deep :: k.0 in loaded <==> k.0 in ActiveApps(t)
  {
    assert forall k :: k in deep <==> At(deep, k).Some?;
    assert forall k :: k in ActiveDeep(t) <==> k in t.deep && k.0 in ActiveApps(t);
    if forall k | k in t.deep :: k.0 in loaded <==> k.0 in ActiveApps(t) {
      forall k ensures k in deep <==> k in ActiveDeep(t) { }
      forall k | k in deep ensures deep[k] == ActiveDeep(t)[k] { assert At(deep, k) == At(t.deep, k); }
    } else {
      var k :| k in t.deep && !(k.0 in loaded <==> k.0 in ActiveApps(t));
      assert k in deep <==> k.0 in loaded;
    }
  }

  /**
    Enabling an app brings back its links but not its destinations: after a resync while it was off,
    every notification handled, a live link's registered destination is still not known.
   */
  lemma EnablingForgetsDestinations(c: Code, l: Link, name: string, to: string)
    requires l.enabled
    ensures var t := Tables(map[c := l], map[l.app := false], map[(l.app, name) := to]);
            var s := Step(Step(Step(State(t, map[], map[], []), Resync), EditApp(l.app, true)), Handle(0));
            s.pending == [] && s.links == map[c := l] && s.t.deep == map[(l.app, name) := to] && s.deep == map[]
  {
    var t := Tables(map[c := l], map[l.app := false], map[(l.app, name) := to]);
    var s0 := State(t, map[], map[], []);
    assert Step(s0, Resync) == s0;
    var s2 := Step(s0, EditApp(l.app, true));
    assert s2.pending == [AppChanged(l.app)] && s2.t.apps == map[l.app := true];
    assert AppReloaded(map[], s2.t, l.app) == map[c := l];
  }

  // --- reloads that are not one step with their query ---

  /** Two reloads of a code applied in either order leave what the last one applied had read, current or not. */
  lemma LastAppliedWins(cache: map<Code, Link>, earlier: Tables, now: Tables, c: Code)
    ensures Held(OneReloaded(OneReloaded(cache, now, c), earlier, c), c) == Desired(now, c)
            <==> Desired(earlier, c) == Desired(now, c)
    ensures Held(OneReloaded(OneReloaded(cache, earlier, c), now, c), c) == Desired(now, c)
  {
    assert Held(OneReloaded(OneReloaded(cache, now, c), earlier, c), c) == Desired(earlier, c);
  }
}
