/**
  The superseding attribution store.

  A record transaction reads the current row and later writes. The two halves are separate steps, so
  transactions on one install may overlap; the partial unique index and the deferred foreign key then
  decide what the write half does. The serialised transaction is the two halves taken together.
 */
module Store {
  import opened Common
  import opened Engine

  datatype InstallKey = InstallKey(app: nat, anonymousId: string)

  datatype Row = Row(install: InstallKey, decision: Decision, supersededBy: Option<nat>)

  /** `current` is the partial unique index: the row of each install with no successor. */
  datatype Table = Table(rows: map<nat, Row>, current: map<InstallKey, nat>)

  datatype Tx = Tx(install: InstallKey, decision: Decision, seen: Option<nat>)

  datatype Outcome = Created(id: nat) | KeptExisting(id: nat) | LostRace(id: nat) | Aborted

  function CurrentRow(t: Table, k: InstallKey): Option<nat> {
    if k in t.current then Some(t.current[k]) else None
  }

  function Inserted(t: Table, id: nat, k: InstallKey, d: Decision): Table {
    Table(t.rows[id := Row(k, d, None)], t.current[k := id])
  }

  function Superseded(t: Table, old_: nat, id: nat): Table
    requires old_ in t.rows
  {
    t.(rows := t.rows[old_ := t.rows[old_].(supersededBy := Some(id))])
  }

  /**
    The write half, against the table as it is by then. Nothing seen: insert, or do nothing on
    conflict. A lower row seen: point it at the replacement and insert; if someone else superseded it
    in between, the insert does nothing and the dangling reference fails the deferred foreign key.
   */
  function Write(t: Table, tx: Tx, id: nat): (Table, Outcome)
  {
    if tx.seen.None? then
      if tx.install in t.current then (t, LostRace(t.current[tx.install]))
      else (Inserted(t, id, tx.install, tx.decision), Created(id))
    else if tx.seen.value !in t.rows then (t, Aborted)
    else if !ShouldSupersede(t.rows[tx.seen.value].decision.how, tx.decision.how) then (t, KeptExisting(tx.seen.value))
    else if t.rows[tx.seen.value].supersededBy.Some? then (t, Aborted)
    else (Inserted(Superseded(t, tx.seen.value, id), id, tx.install, tx.decision), Created(id))
  }

  /** The whole transaction with nobody in between. */
  function Record(t: Table, k: InstallKey, d: Decision, id: nat): (Table, Outcome) {
    Write(t, Tx(k, d, CurrentRow(t, k)), id)
  }

  /** The order of evidence, method by method. */
  predicate Outranks(incoming: Method, existing: Method) {
    match incoming
    case Referrer => existing != Referrer
    case ClickId => existing == DeviceMatch || existing == Probabilistic || existing == Organic
    case DeviceMatch => existing == Probabilistic || existing == Organic
    case Probabilistic => existing == Organic
    case Organic => false
  }

  /** The best of some methods. */
  function Strongest(methods: set<Method>): Method {
    if Referrer in methods then Referrer
    else if ClickId in methods then ClickId
    else if DeviceMatch in methods then DeviceMatch
    else if Probabilistic in methods then Probabilistic
    else Organic
  }

  class AttributionStore {
    var rows: map<nat, Row>
    var current: map<InstallKey, nat>

    ghost function Contents(): Table reads this { Table(rows, current) }

    constructor ()
      ensures Contents() == Table(map[], map[])
    {
      rows, current := map[], map[];
    }

    /** Supersede, then insert. */
    method RecordDecision(k: InstallKey, d: Decision, replacement: nat)
      returns (id: nat, created: bool, superseded: Option<nat>)
      requires Valid(Contents()) && replacement !in rows
      modifies this
      ensures var before := old(Contents());
              && Contents() == Record(before, k, d, replacement).0
              && created == Record(before, k, d, replacement).1.Created?
              && id == Contents().current[k]
              && superseded == (if created then CurrentRow(before, k) else None)
      ensures var stood := Standing(old(Contents()), k);
              created <==> stood.None? || Outranks(d.how, stood.value.how)
      ensures created ==> id == replacement && id in rows && rows[id] == Row(k, d, None)
      ensures superseded.Some? ==>
                superseded.value in old(rows) && superseded.value in rows
                && rows[superseded.value] == old(rows)[superseded.value].(supersededBy := Some(replacement))
      ensures forall j | j in old(rows) && Some(j) != superseded :: j in rows && rows[j] == old(rows)[j]
      ensures forall j | j != k :: CurrentRow(Contents(), j) == CurrentRow(old(Contents()), j)
      ensures Valid(Contents())
    {
      superseded := None;
      RecordKeepsValid(Contents(), k, d, replacement);
      assert IndexedAt(Contents(), k);
      if k in current {
        var existing := current[k];
        if !ShouldSupersede(rows[existing].decision.how, d.how) {
          return existing, false, None;
        }
        rows := rows[existing := rows[existing].(supersededBy := Some(replacement))];
        superseded := Some(existing);
      }
      rows := rows[replacement := Row(k, d, None)];
      current := current[k := replacement];
      id, created := replacement, true;
    }
  }

  // --- the shape of a valid table ---

  function Rank(t: Table, id: nat): nat { if id in t.rows then Fidelity(t.rows[id].decision.how) else 0 }

  ghost predicate IndexedAt(t: Table, k: InstallKey) {
    k in t.current ==>
      t.current[k] in t.rows && t.rows[t.current[k]].install == k && t.rows[t.current[k]].supersededBy.None?
  }

  /** The row is its install's current row, or is outranked by it and has a successor. */
  ghost predicate Placed(t: Table, id: nat) {
    id in t.rows ==>
      && t.rows[id].install in t.current
      && (id == t.current[t.rows[id].install]
          || (t.rows[id].supersededBy.Some? && Rank(t, id) < Rank(t, t.current[t.rows[id].install])))
  }

  /** A successor exists, belongs to the same install and is better evidence. */
  ghost predicate Linked(t: Table, id: nat) {
    id in t.rows && t.rows[id].supersededBy.Some? ==>
      var next := t.rows[id].supersededBy.value;
      next in t.rows && t.rows[next].install == t.rows[id].install && Rank(t, id) < Rank(t, next)
  }

  /** Two rows of an install are never equally good. */
  ghost predicate Apart(t: Table, a: nat, b: nat) {
    a in t.rows && b in t.rows && a != b && t.rows[a].install == t.rows[b].install ==> Rank(t, a) != Rank(t, b)
  }

  ghost predicate Valid(t: Table) {
    && (forall k {:trigger IndexedAt(t, k)} :: IndexedAt(t, k))
    && (forall id {:trigger Placed(t, id)} :: Placed(t, id))
    && (forall id {:trigger Linked(t, id)} :: Linked(t, id))
    && (forall a, b {:trigger Apart(t, a, b)} :: Apart(t, a, b))
  }

  /** A transaction saw nothing, or a row of its own install. */
  ghost predicate TxOk(t: Table, tx: Tx) {
    tx.seen.Some? ==> tx.seen.value in t.rows && t.rows[tx.seen.value].install == tx.install
  }

  /** `t'` is `t` with the new row `id`, which outranks the row it replaces and is pointed at by it. */
  ghost predicate Extends(t: Table, t': Table, id: nat, k: InstallKey, d: Decision) {
    && id !in t.rows
    && (k in t.current ==> t.current[k] in t.rows && Rank(t, t.current[k]) < Fidelity(d.how))
    && t' == Inserted(if k in t.current then Superseded(t, t.current[k], id) else t, id, k, d)
  }

  lemma ExtendedRow(t: Table, t': Table, id: nat, k: InstallKey, d: Decision, a: nat)
    requires Valid(t) && Extends(t, t', id, k, d) && a in t.rows
    ensures a != id && a in t'.rows && Rank(t', a) == Rank(t, a)
    ensures t'.rows[a] == if Some(a) == CurrentRow(t, k) then t.rows[a].(supersededBy := Some(id)) else t.rows[a]
    ensures t.rows[a].install == k ==> k in t.current && Rank(t, a) < Rank(t', id)
  {
    assert Placed(t, a);
  }

  lemma ExtendsKeepsValid(t: Table, t': Table, id: nat, k: InstallKey, d: Decision)
    requires Valid(t) && Extends(t, t', id, k, d)
    ensures Valid(t')
  {
    forall j ensures IndexedAt(t', j) {
      assert IndexedAt(t, j) && IndexedAt(t, k);
      if j in t.current && j != k { ExtendedRow(t, t', id, k, d, t.current[j]); }
    }
    forall a ensures Placed(t', a) {
      if a in t.rows {
        assert Placed(t, a);
        ExtendedRow(t, t', id, k, d, a);
        var top := t.current[t.rows[a].install];
        assert IndexedAt(t, t.rows[a].install);
        ExtendedRow(t, t', id, k, d, top);
      }
    }
    forall a ensures Linked(t', a) {
      if a in t.rows {
        assert Linked(t, a) && IndexedAt(t, k);
        ExtendedRow(t, t', id, k, d, a);
        if t.rows[a].supersededBy.Some? { ExtendedRow(t, t', id, k, d, t.rows[a].supersededBy.value); }
      }
    }
    forall a, b ensures Apart(t', a, b) {
      assert Apart(t, a, b);
      if a in t.rows { ExtendedRow(t, t', id, k, d, a); }
      if b in t.rows { ExtendedRow(t, t', id, k, d, b); }
    }
  }

  lemma WriteKeepsValid(t: Table, tx: Tx, id: nat)
    requires Valid(t) && TxOk(t, tx) && id !in t.rows
    ensures Valid(Write(t, tx, id).0)
    ensures Write(t, tx, id).1.Created? ==> Extends(t, Write(t, tx, id).0, id, tx.install, tx.decision)
    ensures !Write(t, tx, id).1.Created? ==> Write(t, tx, id).0 == t
    ensures Write(t, tx, id).1.KeptExisting? ==> AtLeast(Standing(t, tx.install), tx.decision)
  {
    if tx.seen.Some? {
      assert Placed(t, tx.seen.value) && IndexedAt(t, tx.install);
    }
    if Write(t, tx, id).1.Created? {
      ExtendsKeepsValid(t, Write(t, tx, id).0, id, tx.install, tx.decision);
    }
  }

  /** The decision that stands for an install. */
  function Standing(t: Table, k: InstallKey): Option<Decision> {
    if k in t.current && t.current[k] in t.rows then Some(t.rows[t.current[k]].decision) else None
  }

  ghost predicate AtLeast(o: Option<Decision>, d: Decision) { o.Some? && Fidelity(d.how) <= Fidelity(o.value.how) }

  lemma RecordKeepsValid(t: Table, k: InstallKey, d: Decision, id: nat)
    requires Valid(t) && id !in t.rows
    ensures Valid(Record(t, k, d, id).0)
    ensures !Record(t, k, d, id).1.LostRace? && !Record(t, k, d, id).1.Aborted?
  {
    assert IndexedAt(t, k);
    WriteKeepsValid(t, Tx(k, d, CurrentRow(t, k)), id);
  }

  // --- every interleaving of transactions ---

  /** `finished` is the history: what each transaction brought and how it ended. */
  datatype State = State(table: Table, open: map<nat, Tx>, finished: seq<(InstallKey, Decision, Outcome)>)

  datatype Action =
    | Begin(worker: nat, install: InstallKey, decision: Decision)
    | Finish(worker: nat, id: nat)
    | Stop(worker: nat)

  const Start: State := State(Table(map[], map[]), map[], [])

  function Step(s: State, a: Action): State {
    match a
    case Begin(w, k, d) => if w in s.open then s else s.(open := s.open[w := Tx(k, d, CurrentRow(s.table, k))])
    case Finish(w, id) =>
      if w in s.open && id !in s.table.rows then
        var (table, outcome) := Write(s.table, s.open[w], id);
        State(table, s.open - {w}, s.finished + [(s.open[w].install, s.open[w].decision, outcome)])
      else s
    case Stop(w) => s.(open := s.open - {w})
  }

  function Run(acts: seq<Action>): State {
    if acts == [] then Start else Step(Run(acts[..|acts| - 1]), acts[|acts| - 1])
  }

  /** A worker that stops before its write leaves no trace, and may begin again. */
  lemma StoppedLeavesNothing(s: State, w: nat)
    ensures var s' := Step(s, Stop(w));
            w !in s'.open && s'.table == s.table && s'.finished == s.finished
            && forall v | v != w :: (v in s'.open <==> v in s.open) && (v in s.open ==> s'.open[v] == s.open[v])
  {
  }

  /** The transaction ended in a decision about which row should stand. */
  predicate Considered(o: Outcome) { o.Created? || o.KeptExisting? }

  /** The current row is as good as anything considered ... */
  ghost predicate BeatsConsidered(t: Table, finished: seq<(InstallKey, Decision, Outcome)>) {
    forall f | f in finished && Considered(f.2) :: AtLeast(Standing(t, f.0), f.1)
  }

  /** ... and is itself something considered. */
  ghost predicate WasConsidered(t: Table, finished: seq<(InstallKey, Decision, Outcome)>) {
    forall k | k in t.current ::
      exists f | f in finished :: f.0 == k && Considered(f.2) && Some(f.1) == Standing(t, k)
  }

  ghost predicate Inv(s: State) {
    && Valid(s.table) && (forall w | w in s.open :: TxOk(s.table, s.open[w]))
    && BeatsConsidered(s.table, s.finished) && WasConsidered(s.table, s.finished)
  }

  /** Whatever a write does, what stands is only ever replaced by something better. */
  lemma StandingOnlyRises(t: Table, t': Table, id: nat, k: InstallKey, d: Decision, j: InstallKey)
    requires Valid(t) && Extends(t, t', id, k, d)
    ensures Standing(t', j) == if j == k then Some(d) else Standing(t, j)
    ensures Standing(t, k).Some? ==> Fidelity(Standing(t, k).value.how) < Fidelity(d.how)
  {
    assert IndexedAt(t, j);
    if j in t.current { ExtendedRow(t, t', id, k, d, t.current[j]); }
  }

  lemma ConsideredKeeps(t: Table, finished: seq<(InstallKey, Decision, Outcome)>, tx: Tx, id: nat)
    requires Valid(t) && TxOk(t, tx) && id !in t.rows
    requires BeatsConsidered(t, finished) && WasConsidered(t, finished)
    ensures var (t', outcome) := Write(t, tx, id);
            var finished' := finished + [(tx.install, tx.decision, outcome)];
            BeatsConsidered(t', finished') && WasConsidered(t', finished')
  {
    var (t', outcome) := Write(t, tx, id);
    var added := (tx.install, tx.decision, outcome);
    var finished' := finished + [added];
    WriteKeepsValid(t, tx, id);
    assert added in finished' && forall f | f in finished :: f in finished';
    forall f | f in finished' && Considered(f.2) ensures AtLeast(Standing(t', f.0), f.1) {
      if outcome.Created? { StandingOnlyRises(t, t', id, tx.install, tx.decision, f.0); }
      if f in finished { assert AtLeast(Standing(t, f.0), f.1); }
    }
    forall k | k in t'.current
      ensures exists f | f in finished' :: f.0 == k && Considered(f.2) && Some(f.1) == Standing(t', k)
    {
      if outcome.Created? { StandingOnlyRises(t, t', id, tx.install, tx.decision, k); }
      if !(outcome.Created? && k == tx.install) {
        var f :| f in finished && f.0 == k && Considered(f.2) && Some(f.1) == Standing(t, k);
        assert f in finished';
      }
    }
  }

  lemma TxStaysOk(t: Table, t': Table, id: nat, k: InstallKey, d: Decision, tx: Tx)
    requires Valid(t) && Extends(t, t', id, k, d) && TxOk(t, tx)
    ensures TxOk(t', tx)
  {
    if tx.seen.Some? { ExtendedRow(t, t', id, k, d, tx.seen.value); }
  }

  lemma FinishKeeps(s: State, w: nat, id: nat)
    requires Inv(s) && w in s.open && id !in s.table.rows
    ensures Inv(Step(s, Finish(w, id)))
  {
    var tx := s.open[w];
    WriteKeepsValid(s.table, tx, id);
    ConsideredKeeps(s.table, s.finished, tx, id);
    forall x | x in s.open ensures TxOk(Write(s.table, tx, id).0, s.open[x]) {
      if Write(s.table, tx, id).1.Created? {
        TxStaysOk(s.table, Write(s.table, tx, id).0, id, tx.install, tx.decision, s.open[x]);
      }
    }
  }

  lemma BeginKeeps(s: State, w: nat, k: InstallKey, d: Decision)
    requires Inv(s)
    ensures Inv(Step(s, Begin(w, k, d)))
  {
    assert IndexedAt(s.table, k);
  }

  lemma {:induction false} RunKeeps(acts: seq<Action>)
    ensures Inv(Run(acts))
  {
    if acts != [] {
      var s, a := Run(acts[..|acts| - 1]), acts[|acts| - 1];
      RunKeeps(acts[..|acts| - 1]);
      match a
      case Begin(w, k, d) => BeginKeeps(s, w, k, d);
      case Finish(w, id) => if w in s.open && id !in s.table.rows { FinishKeeps(s, w, id); }
      case Stop(w) =>
    }
  }

  // --- theorems ---

  /** The rows from `id` on, following `superseded_by`. Fidelity rises at every link, so it ends. */
  ghost function Chain(t: Table, id: nat): (c: seq<nat>)
    requires Valid(t) && id in t.rows
    ensures c != [] && c[0] == id
    decreases 4 - Rank(t, id)
  {
    assert Linked(t, id);
    if t.rows[id].supersededBy.None? then [id] else [id] + Chain(t, t.rows[id].supersededBy.value)
  }

  ghost predicate Rising(t: Table, c: seq<nat>) { forall i, j | 0 <= i < j < |c| :: Rank(t, c[i]) < Rank(t, c[j]) }

  lemma {:induction false} ChainLeadsToCurrent(t: Table, id: nat)
    requires Valid(t) && id in t.rows
    ensures t.rows[id].install in t.current
    ensures Chain(t, id)[|Chain(t, id)| - 1] == t.current[t.rows[id].install] && Rising(t, Chain(t, id))
    decreases 4 - Rank(t, id)
  {
    assert Placed(t, id) && Linked(t, id);
    if t.rows[id].supersededBy.Some? {
      var next := t.rows[id].supersededBy.value;
      ChainLeadsToCurrent(t, next);
      ConsRising(t, id, Chain(t, next));
    }
  }

  lemma ConsRising(t: Table, id: nat, rest: seq<nat>)
    requires rest != [] && Rising(t, rest) && Rank(t, id) < Rank(t, rest[0])
    ensures Rising(t, [id] + rest)
  {
    forall i, j | 0 <= i < j < |[id] + rest| ensures Rank(t, ([id] + rest)[i]) < Rank(t, ([id] + rest)[j]) {
      if i == 0 && j > 1 { assert Rank(t, rest[0]) < Rank(t, rest[j - 1]); }
    }
  }

  ghost function RowsOf(t: Table, k: InstallKey): set<nat> { set id | id in t.rows && t.rows[id].install == k }

  ghost function CurrentRowsOf(t: Table, k: InstallKey): set<nat> {
    set id | id in t.rows && t.rows[id].install == k && t.rows[id].supersededBy.None?
  }

  lemma {:induction false} RankedSize(t: Table, ids: set<nat>, ranks: set<nat>)
    requires forall a | a in ids :: Rank(t, a) in ranks
    requires forall a, b | a in ids && b in ids && a != b :: Rank(t, a) != Rank(t, b)
    ensures |ids| <= |ranks|
  {
    if ids != {} {
      var a :| a in ids;
      RankedSize(t, ids - {a}, ranks - {Rank(t, a)});
    }
  }

  /**
    For every interleaving of overlapping transactions with crashes: an install with any row has
    exactly one current row; every row reaches it through `superseded_by`, with fidelity strictly
    rising, so without a cycle; and an install has at most five rows, four when nothing probabilistic
    was recorded.
   */
  lemma OneInstallOneAttribution(acts: seq<Action>, id: nat)
    requires id in Run(acts).table.rows
    ensures var t := Run(acts).table;
            var k := t.rows[id].install;
            && k in t.current && CurrentRowsOf(t, k) == {t.current[k]}
            && Valid(t) && Chain(t, id)[|Chain(t, id)| - 1] == t.current[k] && Rising(t, Chain(t, id))
            && |RowsOf(t, k)| <= 5
            && ((forall r | r in t.rows :: t.rows[r].decision.how != Probabilistic) ==> |RowsOf(t, k)| <= 4)
  {
    RunKeeps(acts);
    var t := Run(acts).table;
    var k := t.rows[id].install;
    ChainLeadsToCurrent(t, id);
    AtMostOnePerRank(t, k);
    assert IndexedAt(t, k);
    forall a | a in CurrentRowsOf(t, k) ensures a == t.current[k] { assert Placed(t, a); }
  }

  lemma AtMostOnePerRank(t: Table, k: InstallKey)
    requires Valid(t)
    ensures |RowsOf(t, k)| <= 5
    ensures (forall r | r in t.rows :: t.rows[r].decision.how != Probabilistic) ==> |RowsOf(t, k)| <= 4
  {
    forall a, b | a in RowsOf(t, k) && b in RowsOf(t, k) && a != b ensures Rank(t, a) != Rank(t, b) {
      assert Apart(t, a, b);
    }
    RankedSize(t, RowsOf(t, k), {0, 1, 2, 3, 4});
    if forall r | r in t.rows :: t.rows[r].decision.how != Probabilistic {
      RankedSize(t, RowsOf(t, k), {0, 2, 3, 4});
    }
  }

  /** What stands is the best evidence any transaction considered. */
  lemma CurrentIsBestConsidered(acts: seq<Action>, k: InstallKey)
    requires k in Run(acts).table.current
    ensures var s := Run(acts);
            && (exists f | f in s.finished :: f.0 == k && Considered(f.2) && Some(f.1) == Standing(s.table, k))
            && (forall f | f in s.finished && f.0 == k && Considered(f.2) :: AtLeast(Standing(s.table, k), f.1))
  {
    RunKeeps(acts);
  }

  lemma RunStep(acts: seq<Action>, a: Action)
    ensures Run(acts + [a]) == Step(Run(acts), a)
  {
    assert (acts + [a])[..|acts + [a]| - 1] == acts;
  }

  /** Overlapping first transactions: the loser's better evidence is dropped and the organic row stands. */
  lemma RaceDropsBetterEvidence(start: seq<Action>, k: InstallKey, organic: Decision, referrer: Decision)
    requires Run(start) == Start && organic.how == Organic && referrer.how == Referrer
    ensures var s := Run(start + [Begin(0, k, organic)] + [Begin(1, k, referrer)] + [Finish(0, 10)] + [Finish(1, 11)]);
            Standing(s.table, k) == Some(organic)
            && s.finished == [(k, organic, Created(10)), (k, referrer, LostRace(10))]
  {
    var a1 := start + [Begin(0, k, organic)];
    var a2 := a1 + [Begin(1, k, referrer)];
    var a3 := a2 + [Finish(0, 10)];
    RunStep(start, Begin(0, k, organic));
    RunStep(a1, Begin(1, k, referrer));
    assert Run(a2) == State(EmptyTable, map[0 := Tx(k, organic, None), 1 := Tx(k, referrer, None)], []);
    RunStep(a2, Finish(0, 10));
    assert Run(a3).table == Inserted(EmptyTable, 10, k, organic) && Run(a3).open[1] == Tx(k, referrer, None);
    RunStep(a3, Finish(1, 11));
  }

  /** Overlapping upgrades: both saw the lowest row, the better one finishes second and fails its foreign key. */
  lemma AbortDropsBetterEvidence(start: seq<Action>, k: InstallKey, low: Decision, mid: Decision, high: Decision)
    returns (acts: seq<Action>)
    requires Run(start) == Start && ShouldSupersede(low.how, mid.how) && ShouldSupersede(mid.how, high.how)
    ensures var s := Run(acts);
            Standing(s.table, k) == Some(mid)
            && s.finished == [(k, low, Created(10)), (k, mid, Created(11)), (k, high, Aborted)]
  {
    var a1 := start + [Begin(0, k, low)];
    var a2 := a1 + [Finish(0, 10)];
    RunStep(start, Begin(0, k, low));
    RunStep(a1, Finish(0, 10));
    var t := Inserted(EmptyTable, 10, k, low);
    assert Run(a2) == State(t, map[], [(k, low, Created(10))]);
    var a3 := a2 + [Begin(1, k, mid)];
    var a4 := a3 + [Begin(2, k, high)];
    RunStep(a2, Begin(1, k, mid));
    RunStep(a3, Begin(2, k, high));
    assert Run(a4) == State(t, map[1 := Tx(k, mid, Some(10)), 2 := Tx(k, high, Some(10))], [(k, low, Created(10))]);
    acts := BothFinish(a4, k, low, mid, high);
  }

  lemma BothFinish(before: seq<Action>, k: InstallKey, low: Decision, mid: Decision, high: Decision)
    returns (acts: seq<Action>)
    requires ShouldSupersede(low.how, mid.how) && ShouldSupersede(mid.how, high.how)
    requires Run(before)
             == State(Inserted(EmptyTable, 10, k, low), map[1 := Tx(k, mid, Some(10)), 2 := Tx(k, high, Some(10))],
                      [(k, low, Created(10))])
    ensures var s := Run(acts);
            Standing(s.table, k) == Some(mid)
            && s.finished == [(k, low, Created(10)), (k, mid, Created(11)), (k, high, Aborted)]
  {
    var a1 := before + [Finish(1, 11)];
    RunStep(before, Finish(1, 11));
    var t := Inserted(Superseded(Inserted(EmptyTable, 10, k, low), 10, 11), 11, k, mid);
    assert Run(a1).table == t && Run(a1).open[2] == Tx(k, high, Some(10)) && 2 in Run(a1).open;
    acts := a1 + [Finish(2, 12)];
    RunStep(a1, Finish(2, 12));
  }

  /** The current row is no longer the one the transaction saw, and is worse than what it brings. */
  ghost predicate Overtaken(t: Table, tx: Tx) {
    tx.install in t.current && Some(t.current[tx.install]) != tx.seen && !AtLeast(Standing(t, tx.install), tx.decision)
  }

  /** A finishing transaction leaves evidence at least as good as its own exactly unless it was overtaken by worse. */
  lemma FinishHonoursEvidenceIff(s: State, w: nat, id: nat)
    requires Inv(s) && w in s.open && id !in s.table.rows
    ensures var tx := s.open[w];
            AtLeast(Standing(Step(s, Finish(w, id)).table, tx.install), tx.decision) <==> !Overtaken(s.table, tx)
  {
    var tx := s.open[w];
    WriteKeepsValid(s.table, tx, id);
    assert IndexedAt(s.table, tx.install);
    if tx.seen.Some? { assert Placed(s.table, tx.seen.value); }
    if Write(s.table, tx, id).1.Created? {
      StandingOnlyRises(s.table, Write(s.table, tx, id).0, id, tx.install, tx.decision, tx.install);
    }
  }

  /** What stands is at least as good as everything any transaction brought, whatever its outcome. */
  ghost predicate AllHonoured(s: State) { forall f | f in s.finished :: AtLeast(Standing(s.table, f.0), f.1) }

  ghost predicate OvertakenAt(acts: seq<Action>, n: nat) {
    n < |acts| && acts[n].Finish? &&
    var s := Run(acts[..n]);
    acts[n].worker in s.open && acts[n].id !in s.table.rows && Overtaken(s.table, s.open[acts[n].worker])
  }

  lemma FinishAllHonoured(s: State, w: nat, id: nat)
    requires Inv(s) && AllHonoured(s) && w in s.open && id !in s.table.rows && !Overtaken(s.table, s.open[w])
    ensures AllHonoured(Step(s, Finish(w, id)))
  {
    var tx := s.open[w];
    var s' := Step(s, Finish(w, id));
    WriteKeepsValid(s.table, tx, id);
    FinishHonoursEvidenceIff(s, w, id);
    forall f | f in s'.finished ensures AtLeast(Standing(s'.table, f.0), f.1) {
      if f in s.finished {
        assert AtLeast(Standing(s.table, f.0), f.1);
        if Write(s.table, tx, id).1.Created? { StandingOnlyRises(s.table, s'.table, id, tx.install, tx.decision, f.0); }
      }
    }
  }

  /** In every run in which no finishing transaction was overtaken by worse evidence, the best evidence stands. */
  lemma {:induction false} BestEvidenceStands(acts: seq<Action>)
    requires forall n {:trigger OvertakenAt(acts, n)} :: !OvertakenAt(acts, n)
    ensures AllHonoured(Run(acts))
  {
    if acts != [] {
      var init, a := acts[..|acts| - 1], acts[|acts| - 1];
      forall n: nat ensures !OvertakenAt(init, n) {
        assert !OvertakenAt(acts, n);
        if n < |init| { assert acts[..n] == init[..n]; }
      }
      BestEvidenceStands(init);
      RunKeeps(init);
      assert !OvertakenAt(acts, |init|);
      var s := Run(init);
      if a.Finish? && a.worker in s.open && a.id !in s.table.rows { FinishAllHonoured(s, a.worker, a.id); }
    }
  }

  // --- one transaction at a time ---

  /** Decisions recorded one after the other, all for one install, each under a new row id. */
  function RecordAll(t: Table, k: InstallKey, ds: seq<Decision>, firstId: nat): Table {
    if ds == [] then t
    else Record(RecordAll(t, k, ds[..|ds| - 1], firstId), k, ds[|ds| - 1], firstId + |ds| - 1).0
  }

  /** The first of the best. */
  function Best(ds: seq<Decision>): (b: Decision)
    requires ds != []
    ensures b in ds && forall d | d in ds :: Fidelity(d.how) <= Fidelity(b.how)
  {
    if |ds| == 1 then ds[0]
    else
      var b := Best(ds[..|ds| - 1]);
      assert forall d | d in ds :: d == ds[|ds| - 1] || d in ds[..|ds| - 1];
      if ShouldSupersede(b.how, ds[|ds| - 1].how) then ds[|ds| - 1] else b
  }

  const EmptyTable: Table := Table(map[], map[])

  ghost predicate Serial(t: Table, k: InstallKey, ds: seq<Decision>, firstId: nat) {
    && Valid(t) && (forall id | id in t.rows :: firstId <= id < firstId + |ds|)
    && (ds != [] ==> Standing(t, k) == Some(Best(ds))) && (ds == [] ==> k !in t.current)
  }

  lemma RecordOneMore(t: Table, k: InstallKey, ds: seq<Decision>, d: Decision, firstId: nat)
    requires Serial(t, k, ds, firstId)
    ensures Serial(Record(t, k, d, firstId + |ds|).0, k, ds + [d], firstId)
  {
    var id := firstId + |ds|;
    var tx := Tx(k, d, CurrentRow(t, k));
    assert IndexedAt(t, k);
    WriteKeepsValid(t, tx, id);
    BestOfOneMore(ds, d);
    if Record(t, k, d, id).1.Created? {
      StandingOnlyRises(t, Record(t, k, d, id).0, id, k, d, k);
    }
  }

  lemma BestOfOneMore(ds: seq<Decision>, d: Decision)
    ensures Best(ds + [d]) == if ds == [] then d else if ShouldSupersede(Best(ds).how, d.how) then d else Best(ds)
  {
    assert (ds + [d])[..|ds|] == ds;
  }

  lemma {:induction false} SerialKeepsTheFirstBest(k: InstallKey, ds: seq<Decision>, firstId: nat)
    ensures Serial(RecordAll(EmptyTable, k, ds, firstId), k, ds, firstId)
  {
    if ds != [] {
      var n := |ds| - 1;
      SerialKeepsTheFirstBest(k, ds[..n], firstId);
      var t := RecordAll(EmptyTable, k, ds[..n], firstId);
      assert RecordAll(EmptyTable, k, ds, firstId) == Record(t, k, ds[n], firstId + n).0;
      RecordOneMore(t, k, ds[..n], ds[n], firstId);
      assert ds[..n] + [ds[n]] == ds;
    }
  }

  /** The methods of some decisions. */
  ghost function MethodsOf(ds: seq<Decision>): set<Method> { set d | d in ds :: d.how }

  lemma BestIsStrongest(methods: set<Method>, best: Method)
    requires best in methods && forall m | m in methods :: Fidelity(m) <= Fidelity(best)
    ensures best == Strongest(methods)
  {
  }

  /**
    Recorded one after another, decisions leave standing the strongest method among them: the referrer's if
    any is, else a click id, else a device match, else a probabilistic one, else organic; and of that
    method the first that was recorded.
   */
  lemma StrongestStands(k: InstallKey, ds: seq<Decision>, firstId: nat) returns (first: nat)
    requires ds != []
    ensures first < |ds| && Standing(RecordAll(EmptyTable, k, ds, firstId), k) == Some(ds[first])
    ensures ds[first].how == Strongest(MethodsOf(ds)) && forall i | 0 <= i < first :: ds[i].how != ds[first].how
  {
    SerialKeepsTheFirstBest(k, ds, firstId);
    first := BestIsFirst(ds);
    forall m | m in MethodsOf(ds) ensures Fidelity(m) <= Fidelity(Best(ds).how) { }
    BestIsStrongest(MethodsOf(ds), Best(ds).how);
  }

  lemma {:induction false} BestIsFirst(ds: seq<Decision>) returns (first: nat)
    requires ds != []
    ensures first < |ds| && ds[first] == Best(ds) && forall i | 0 <= i < first :: ds[i].how != ds[first].how
  {
    var n := |ds| - 1;
    if n == 0 {
      first := 0;
    } else {
      first := BestIsFirst(ds[..n]);
      if ShouldSupersede(Best(ds[..n]).how, ds[n].how) {
        first := n;
        forall i | 0 <= i < n ensures ds[i].how != ds[n].how { assert ds[..n][i] in ds[..n]; }
      }
    }
  }

  /** What the transactions of a run considered for an install. */
  ghost function ConsideredFor(s: State, k: InstallKey): set<Method> {
    set f | f in s.finished && f.0 == k && Considered(f.2) :: f.1.how
  }

  /** In every interleaving the method that stands is the strongest considered. */
  lemma StrongestConsideredStands(acts: seq<Action>, k: InstallKey)
    ensures var s := Run(acts);
            && (k in s.table.current <==> ConsideredFor(s, k) != {})
            && (k in s.table.current ==>
                  Standing(s.table, k).Some? && Standing(s.table, k).value.how == Strongest(ConsideredFor(s, k)))
  {
    RunKeeps(acts);
    var s := Run(acts);
    var methods := ConsideredFor(s, k);
    if k in s.table.current {
      assert IndexedAt(s.table, k);
      var f :| f in s.finished && f.0 == k && Considered(f.2) && Some(f.1) == Standing(s.table, k);
      var best := Standing(s.table, k).value.how;
      assert best in methods;
      forall m | m in methods ensures Fidelity(m) <= Fidelity(best) {
        var g :| g in s.finished && g.0 == k && Considered(g.2) && g.1.how == m;
        assert AtLeast(Standing(s.table, g.0), g.1);
      }
      BestIsStrongest(methods, best);
    }
  }

  /** Whatever the delivery order and duplication, serialised recording ends in the same method. */
  lemma DeliveryOrderDoesNotMatter(k: InstallKey, a: seq<Decision>, b: seq<Decision>)
    requires a != [] && b != [] && forall d :: d in a <==> d in b
    ensures var s, t := Standing(RecordAll(EmptyTable, k, a, 0), k), Standing(RecordAll(EmptyTable, k, b, 0), k);
            s.Some? && t.Some? && s.value.how == t.value.how
  {
    SerialKeepsTheFirstBest(k, a, 0);
    SerialKeepsTheFirstBest(k, b, 0);
    assert Best(a) in b && Best(b) in a;
  }
}
