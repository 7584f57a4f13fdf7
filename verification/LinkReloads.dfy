/**
  The link cache's reloads as two steps each, the query and the swap, so that several are under way at once
  and may land in any order. A code stays with the app that owns it.
 */
module LinkReloads {
  import opened Common
  import opened LinkCache

  datatype What = One(code: Code) | OfApp(app: AppId) | All | Missing(code: Code)

  /** A reload between its query and its swap, with the tables its query saw. */
  datatype Load = Load(what: What, read: Tables)

  datatype Mirror = Mirror(t: Tables, links: map<Code, Link>, pending: seq<Note>, flight: seq<Load>)

  datatype Action =
    | ChangeLink(code: Code, to: Option<Link>)
    | ChangeApp(app: AppId, active: bool)
    | Query(i: nat)                        // for the `i`th notification
    | QueryAll
    | QueryMissing(code: Code)
    | Land(i: nat)                         // the `i`th reload under way

  type Owner = Code -> AppId

  function Without<T>(s: seq<T>, i: nat): seq<T>
    requires i < |s|
  {
    s[..i] + s[i + 1..]
  }

  function Asked(n: Note): Option<What> {
    match n case LinkChanged(c) => Some(One(c)) case AppChanged(a) => Some(OfApp(a)) case DeepChanged(_) => None
  }

  /** What a reload makes of the cached links when it lands. */
  function Landed(links: map<Code, Link>, l: Load): map<Code, Link> {
    match l.what
    case One(c) => OneReloaded(links, l.read, c)
    case OfApp(a) => AppReloaded(links, l.read, a)
    case All => ActiveLinks(l.read)
    case Missing(c) => if Desired(l.read, c).Some? then links[c := l.read.links[c]] else links
  }

  function Step(owner: Owner, s: Mirror, a: Action): Mirror {
    match a
    case ChangeLink(c, to) =>
      if to.Some? && to.value.app != owner(c) then s
      else s.(t := s.t.(links := if to.Some? then s.t.links[c := to.value] else s.t.links - {c}),
              pending := s.pending + [LinkChanged(c)])
    case ChangeApp(app, active) =>
      s.(t := s.t.(apps := s.t.apps[app := active]), pending := s.pending + [AppChanged(app)])
    case Query(i) =>
      if i >= |s.pending| then s
      else
        var w := Asked(s.pending[i]);
        s.(pending := Without(s.pending, i),
           flight := s.flight + if w.Some? then [Load(w.value, s.t)] else [])
    case QueryAll => s.(flight := s.flight + [Load(All, s.t)])
    case QueryMissing(c) => if c in s.links then s else s.(flight := s.flight + [Load(Missing(c), s.t)])
    case Land(i) =>
      if i >= |s.flight| then s else s.(links := Landed(s.links, s.flight[i]), flight := Without(s.flight, i))
  }

  function After(owner: Owner, s: Mirror, acts: seq<Action>, n: nat): Mirror
    requires n <= |acts|
  {
    if n == 0 then s else Step(owner, After(owner, s, acts, n - 1), acts[n - 1])
  }

  // --- what one reload writes ---

  ghost predicate OwnedLinks(owner: Owner, links: map<Code, Link>) { forall c | c in links :: links[c].app == owner(c) }

  ghost predicate Owned(owner: Owner, s: Mirror) {
    && OwnedLinks(owner, s.t.links) && OwnedLinks(owner, s.links)
    && forall k | 0 <= k < |s.flight| :: OwnedLinks(owner, s.flight[k].read.links)
  }

  /** The reload sets this code when it lands. */
  predicate Sets(owner: Owner, l: Load, c: Code) {
    match l.what
    case One(d) => c == d
    case OfApp(a) => owner(c) == a
    case All => true
    case Missing(d) => c == d && Desired(l.read, c).Some?
  }

  /** It sets it to what its query saw, and leaves every other code alone. */
  lemma LandedIs(owner: Owner, links: map<Code, Link>, l: Load, c: Code)
    requires OwnedLinks(owner, links) && OwnedLinks(owner, l.read.links)
    ensures Held(Landed(links, l), c) == if Sets(owner, l, c) then Desired(l.read, c) else Held(links, c)
    ensures OwnedLinks(owner, Landed(links, l))
  {
  }

  lemma StepOwned(owner: Owner, s: Mirror, a: Action)
    requires Owned(owner, s)
    ensures Owned(owner, Step(owner, s, a))
  {
    if a.Land? && a.i < |s.flight| { LandedIs(owner, s.links, s.flight[a.i], ""); }
  }

  // --- which codes the cache has right, or will ---

  /** A notification for the code is still to be acted on. */
  ghost predicate Coming(owner: Owner, s: Mirror, c: Code) {
    LinkChanged(c) in s.pending || AppChanged(owner(c)) in s.pending
  }

  /** The `q`th reload under way will set the code, to what the tables say now. */
  ghost predicate Corrects(owner: Owner, s: Mirror, q: nat, c: Code) {
    q < |s.flight| && Sets(owner, s.flight[q], c) && Desired(s.flight[q].read, c) == Desired(s.t, c)
  }

  ghost predicate Sound(owner: Owner, s: Mirror, c: Code) {
    || Held(s.links, c) == Desired(s.t, c)
    || Coming(owner, s, c)
    || exists q: nat :: Corrects(owner, s, q, c)
  }

  /**
    A reload lands with an out-of-date view of the code, when no notification for it is still to come and
    no other reload under way has seen it as it is now.
   */
  ghost predicate Spoils(owner: Owner, s: Mirror, a: Action, c: Code) {
    && a.Land? && a.i < |s.flight| && Sets(owner, s.flight[a.i], c)
    && Desired(s.flight[a.i].read, c) != Desired(s.t, c)
    && !Coming(owner, s, c) && forall q: nat :: !Corrects(owner, s, q, c)
  }

  lemma WithoutAt<T>(s: seq<T>, i: nat, q: nat) returns (k: nat)
    requires i < |s| && q < |s| && q != i
    ensures k < |Without(s, i)| && Without(s, i)[k] == s[q] && k == if q < i then q else q - 1
  {
    k := if q < i then q else q - 1;
  }

  lemma WithoutFrom<T>(s: seq<T>, i: nat, k: nat) returns (q: nat)
    requires i < |s| && k < |Without(s, i)|
    ensures q < |s| && q != i && Without(s, i)[k] == s[q]
  {
    q := if k < i then k else k + 1;
  }

  lemma LandSoundIff(owner: Owner, s: Mirror, i: nat, c: Code)
    requires Owned(owner, s) && Sound(owner, s, c) && i < |s.flight|
    ensures Sound(owner, Step(owner, s, Land(i)), c) <==> !Spoils(owner, s, Land(i), c)
  {
    var s' := Step(owner, s, Land(i));
    LandedIs(owner, s.links, s.flight[i], c);
    if q: nat :| q != i && Corrects(owner, s, q, c) {
      var k := WithoutAt(s.flight, i, q);
      assert Corrects(owner, s', k, c);
    }
    if k: nat :| Corrects(owner, s', k, c) {
      var q := WithoutFrom(s.flight, i, k);
      assert Corrects(owner, s, q, c);
    }
  }

  lemma QuerySound(owner: Owner, s: Mirror, i: nat, c: Code)
    requires Sound(owner, s, c) && i < |s.pending|
    ensures Sound(owner, Step(owner, s, Query(i)), c)
  {
    var s' := Step(owner, s, Query(i));
    if q: nat :| Corrects(owner, s, q, c) {
      assert Corrects(owner, s', q, c);
    } else if Coming(owner, s, c) {
      var n := if LinkChanged(c) in s.pending then LinkChanged(c) else AppChanged(owner(c));
      if s.pending[i] == n {
        assert Corrects(owner, s', |s.flight|, c);
      } else {
        Removed(s.pending, i, n);
      }
    }
  }

  /** One action: a sound code stays sound exactly unless the action spoils it. */
  lemma StepSoundIff(owner: Owner, s: Mirror, a: Action, c: Code)
    requires Owned(owner, s) && Sound(owner, s, c)
    ensures Sound(owner, Step(owner, s, a), c) <==> !Spoils(owner, s, a, c)
  {
    var s' := Step(owner, s, a);
    if a.Land? {
      if a.i < |s.flight| { LandSoundIff(owner, s, a.i, c); }
    } else if a.Query? {
      if a.i < |s.pending| { QuerySound(owner, s, a.i, c); }
    } else if q: nat :| Corrects(owner, s, q, c) {
      assert Coming(owner, s', c) || Corrects(owner, s', q, c);
    } else if Coming(owner, s, c) {
      assert Coming(owner, s', c);
    }
  }

  /** A code that is cached is not asked for again; one that is not is asked for as the tables are now. */
  lemma OnlyMissesAreQueried(owner: Owner, s: Mirror, c: Code)
    ensures var s' := Step(owner, s, QueryMissing(c));
            && s'.flight == (if c in s.links then s.flight else s.flight + [Load(Missing(c), s.t)])
            && s'.links == s.links && s'.t == s.t && s'.pending == s.pending
  {
  }

  // --- whole runs ---

  ghost predicate AllSound(owner: Owner, s: Mirror) { forall c {:trigger Sound(owner, s, c)} :: Sound(owner, s, c) }

  ghost predicate SoundAt(owner: Owner, s: Mirror, acts: seq<Action>, n: nat) {
    n <= |acts| && AllSound(owner, After(owner, s, acts, n))
  }

  ghost predicate SpoilsAt(owner: Owner, s: Mirror, acts: seq<Action>, n: nat) {
    n < |acts| && exists c :: Spoils(owner, After(owner, s, acts, n), acts[n], c)
  }

  lemma {:induction false} AfterOwned(owner: Owner, s: Mirror, acts: seq<Action>, n: nat)
    requires Owned(owner, s) && n <= |acts|
    ensures Owned(owner, After(owner, s, acts, n))
  {
    if n > 0 {
      AfterOwned(owner, s, acts, n - 1);
      StepOwned(owner, After(owner, s, acts, n - 1), acts[n - 1]);
    }
  }

  lemma NextSoundIff(owner: Owner, s: Mirror, acts: seq<Action>, n: nat)
    requires Owned(owner, s) && n < |acts| && SoundAt(owner, s, acts, n)
    ensures SoundAt(owner, s, acts, n + 1) <==> !SpoilsAt(owner, s, acts, n)
  {
    var m, a := After(owner, s, acts, n), acts[n];
    AfterOwned(owner, s, acts, n);
    forall c ensures Sound(owner, Step(owner, m, a), c) <==> !Spoils(owner, m, a, c) {
      assert Sound(owner, m, c);
      StepSoundIff(owner, m, a, c);
    }
  }

  ghost predicate NeverSpoiled(owner: Owner, s: Mirror, acts: seq<Action>) {
    forall n {:trigger SpoilsAt(owner, s, acts, n)} | 0 <= n < |acts| :: !SpoilsAt(owner, s, acts, n)
  }

  lemma {:induction false} UnspoiledIsSound(owner: Owner, s: Mirror, acts: seq<Action>, n: nat)
    requires Owned(owner, s) && AllSound(owner, s) && n <= |acts| && NeverSpoiled(owner, s, acts)
    ensures SoundAt(owner, s, acts, n)
  {
    if n > 0 {
      UnspoiledIsSound(owner, s, acts, n - 1);
      assert !SpoilsAt(owner, s, acts, n - 1);
      NextSoundIff(owner, s, acts, n - 1);
    }
  }

  /**
    In every run from a sound state: every code the cache has wrong has a notification or a current reload
    still to come, throughout, if and only if no reload ever spoils a code.
   */
  lemma SoundThroughoutIff(owner: Owner, s: Mirror, acts: seq<Action>)
    requires Owned(owner, s) && AllSound(owner, s)
    ensures (forall n {:trigger SoundAt(owner, s, acts, n)} | 0 <= n <= |acts| :: SoundAt(owner, s, acts, n))
            <==> NeverSpoiled(owner, s, acts)
  {
    if NeverSpoiled(owner, s, acts) {
      forall n: nat | n <= |acts| ensures SoundAt(owner, s, acts, n) { UnspoiledIsSound(owner, s, acts, n); }
    }
    if forall n {:trigger SoundAt(owner, s, acts, n)} | 0 <= n <= |acts| :: SoundAt(owner, s, acts, n) {
      forall n: nat | n < |acts| ensures !SpoilsAt(owner, s, acts, n) {
        assert SoundAt(owner, s, acts, n) && SoundAt(owner, s, acts, n + 1);
        NextSoundIff(owner, s, acts, n);
      }
    }
  }

  /** Querying everything makes every code sound, whatever was wrong or lost before. */
  lemma QueryAllIsSound(owner: Owner, s: Mirror)
    ensures AllSound(owner, Step(owner, s, QueryAll))
  {
    var s' := Step(owner, s, QueryAll);
    forall c ensures Sound(owner, s', c) { assert Corrects(owner, s', |s.flight|, c); }
  }

  /** At rest, with nothing to come and nothing under way, sound means that the cache is the active links. */
  lemma SoundAtRest(owner: Owner, s: Mirror)
    requires AllSound(owner, s) && s.pending == [] && s.flight == []
    ensures s.links == ActiveLinks(s.t)
  {
    forall c ensures Held(s.links, c) == Held(ActiveLinks(s.t), c) { assert Sound(owner, s, c); }
    assert forall c :: c in s.links <==> Held(s.links, c).Some?;
    assert forall c :: c in ActiveLinks(s.t) <==> Held(ActiveLinks(s.t), c).Some?;
    forall c | c in s.links ensures s.links[c] == ActiveLinks(s.t)[c] {
      assert Held(s.links, c) == Held(ActiveLinks(s.t), c);
    }
  }

  // --- reloads that land in the order of their queries ---

  /** The reload is out of date for the code. */
  ghost predicate Stale(owner: Owner, s: Mirror, k: nat, c: Code) {
    k < |s.flight| && Sets(owner, s.flight[k], c) && Desired(s.flight[k].read, c) != Desired(s.t, c)
  }

  /** A notification for the code is to come, or a current reload is under way behind the `k`th. */
  ghost predicate Behind(owner: Owner, s: Mirror, k: int, c: Code) {
    Coming(owner, s, c) || exists q: nat :: q > k && Corrects(owner, s, q, c)
  }

  /** A stale reload has a current one behind it. */
  ghost predicate Followed(owner: Owner, s: Mirror, k: nat, c: Code) {
    Stale(owner, s, k, c) ==> Behind(owner, s, k, c)
  }

  ghost predicate Orderly(owner: Owner, s: Mirror, c: Code) {
    Sound(owner, s, c) && forall k: nat :: Followed(owner, s, k, c)
  }

  lemma OrderlyNeverSpoils(owner: Owner, s: Mirror, c: Code)
    requires Orderly(owner, s, c)
    ensures !Spoils(owner, s, Land(0), c)
  {
    assert Followed(owner, s, 0, c);
  }

  lemma LandFirstOrderly(owner: Owner, s: Mirror, c: Code)
    requires Owned(owner, s) && Orderly(owner, s, c) && s.flight != []
    ensures Orderly(owner, Step(owner, s, Land(0)), c)
  {
    var s' := Step(owner, s, Land(0));
    OrderlyNeverSpoils(owner, s, c);
    LandSoundIff(owner, s, 0, c);
    assert s'.flight == s.flight[1..];
    forall k: nat ensures Followed(owner, s', k, c) {
      assert Followed(owner, s, k + 1, c);
      if Stale(owner, s', k, c) && !Coming(owner, s, c) {
        var q: nat :| q > k + 1 && Corrects(owner, s, q, c);
        assert Corrects(owner, s', q - 1, c);
      }
    }
  }

  lemma QueryOrderly(owner: Owner, s: Mirror, i: nat, c: Code)
    requires Orderly(owner, s, c) && i < |s.pending|
    ensures Orderly(owner, Step(owner, s, Query(i)), c)
  {
    var s' := Step(owner, s, Query(i));
    QuerySound(owner, s, i, c);
    forall k: nat ensures Followed(owner, s', k, c) {
      if Stale(owner, s', k, c) {
        assert Stale(owner, s, k, c) && Followed(owner, s, k, c);
        QueryBehind(owner, s, i, k, c);
      }
    }
  }

  lemma QueryBehind(owner: Owner, s: Mirror, i: nat, k: nat, c: Code)
    requires i < |s.pending| && k < |s.flight| && Behind(owner, s, k, c)
    ensures Behind(owner, Step(owner, s, Query(i)), k, c)
  {
    var s' := Step(owner, s, Query(i));
    if Coming(owner, s, c) {
      var n := if LinkChanged(c) in s.pending then LinkChanged(c) else AppChanged(owner(c));
      if s.pending[i] == n {
        assert Corrects(owner, s', |s.flight|, c);
      } else {
        Removed(s.pending, i, n);
      }
    } else {
      var q: nat :| q > k && Corrects(owner, s, q, c);
      assert Corrects(owner, s', q, c);
    }
  }

  lemma OtherOrderly(owner: Owner, s: Mirror, a: Action, c: Code)
    requires Owned(owner, s) && Orderly(owner, s, c) && !a.Land? && !a.Query?
    ensures Orderly(owner, Step(owner, s, a), c)
  {
    var s' := Step(owner, s, a);
    StepSoundIff(owner, s, a, c);
    if !Coming(owner, s', c) {
      assert !Coming(owner, s, c) && Desired(s'.t, c) == Desired(s.t, c);
      forall k: nat ensures Followed(owner, s', k, c) {
        if Stale(owner, s', k, c) {
          assert Stale(owner, s, k, c) && Followed(owner, s, k, c);
          var q: nat :| q > k && Corrects(owner, s, q, c);
          assert Corrects(owner, s', q, c);
        }
      }
    }
  }

  ghost predicate AllOrderly(owner: Owner, s: Mirror) {
    forall c {:trigger Orderly(owner, s, c)} :: Orderly(owner, s, c)
  }

  predicate InOrder(a: Action) { a.Land? ==> a.i == 0 }

  lemma {:induction false} InOrderIsOrderly(owner: Owner, s: Mirror, acts: seq<Action>, n: nat)
    requires Owned(owner, s) && AllOrderly(owner, s) && n <= |acts| && forall a | a in acts :: InOrder(a)
    ensures AllOrderly(owner, After(owner, s, acts, n))
  {
    if n > 0 {
      InOrderIsOrderly(owner, s, acts, n - 1);
      AfterOwned(owner, s, acts, n - 1);
      var m, a := After(owner, s, acts, n - 1), acts[n - 1];
      forall c ensures Orderly(owner, Step(owner, m, a), c) {
        assert Orderly(owner, m, c) && InOrder(a);
        if a.Land? { if m.flight != [] { LandFirstOrderly(owner, m, c); } }
        else if a.Query? { if a.i < |m.pending| { QueryOrderly(owner, m, a.i, c); } }
        else { OtherOrderly(owner, m, a, c); }
      }
    }
  }

  /**
    Where reloads land in the order of their queries, none ever spoils a code: from a cache that agrees with
    its tables, any run that comes to rest leaves one that agrees with them again.
   */
  lemma OrderedReloadsAreExact(owner: Owner, s: Mirror, acts: seq<Action>)
    requires Owned(owner, s) && s.links == ActiveLinks(s.t) && s.flight == []
    requires forall a | a in acts :: InOrder(a)
    ensures NeverSpoiled(owner, s, acts)
    ensures var e := After(owner, s, acts, |acts|); e.pending == [] && e.flight == [] ==> e.links == ActiveLinks(e.t)
  {
    forall c ensures Orderly(owner, s, c) { assert Held(s.links, c) == Desired(s.t, c); }
    forall n: nat | n < |acts| ensures !SpoilsAt(owner, s, acts, n) {
      InOrderIsOrderly(owner, s, acts, n);
      var m := After(owner, s, acts, n);
      assert InOrder(acts[n]);
      forall c ensures !Spoils(owner, m, acts[n], c) {
        assert Orderly(owner, m, c);
        if acts[n].Land? { OrderlyNeverSpoils(owner, m, c); }
      }
    }
    InOrderIsOrderly(owner, s, acts, |acts|);
    var e := After(owner, s, acts, |acts|);
    forall c ensures Sound(owner, e, c) { assert Orderly(owner, e, c); }
    if e.pending == [] && e.flight == [] { SoundAtRest(owner, e); }
  }

  /** Out of order: the later of two reloads lands first, and the link disabled meanwhile comes back for good. */
  lemma OvertakenReloadRevives(owner: Owner, c: Code, l: Link, acts: seq<Action>)
    requires l.enabled && l.app == owner(c)
    requires acts == [ChangeLink(c, Some(l)), Query(0), ChangeLink(c, None), Query(0), Land(1), Land(0)]
    ensures var e := After(owner, Mirror(Tables(map[], map[l.app := true], map[]), map[], [], []), acts, 6);
            e.pending == [] && e.flight == [] && c in e.links && c !in e.t.links
  {
    var s := Mirror(Tables(map[], map[l.app := true], map[]), map[], [], []);
    var on := Tables(map[c := l], map[l.app := true], map[]);
    var off := Tables(map[], map[l.app := true], map[]);
    assert After(owner, s, acts, 1) == Mirror(on, map[], [LinkChanged(c)], []);
    assert After(owner, s, acts, 2) == Mirror(on, map[], [], [Load(One(c), on)]);
    assert After(owner, s, acts, 3) == Mirror(off, map[], [LinkChanged(c)], [Load(One(c), on)]);
    assert After(owner, s, acts, 4) == Mirror(off, map[], [], [Load(One(c), on), Load(One(c), off)]);
    assert After(owner, s, acts, 5) == Mirror(off, map[], [], [Load(One(c), on)]);
  }
}
