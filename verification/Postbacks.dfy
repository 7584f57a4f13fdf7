/**
  Postback delivery as a protocol. A delivery row is claimed before anything is sent; consumers and
  retry sweeps may stop between any two steps. A sweep claims many rows in one statement; here each
  claimed row is its own process, which allows strictly more interleavings.
 */
module Postbacks {
  import opened Common

  const MAX_ATTEMPTS: nat := 5

  // --- the verdict on one attempt ---

  /** What came back: a status code, or none; `blocked` marks a destination we refuse to reach. */
  datatype Result = Result(status: Option<int>, blocked: bool)

  predicate Retryable(r: Result) {
    if r.blocked then false
    else if r.status.None? then true
    else if r.status.value == 408 || r.status.value == 429 then true
    else r.status.value >= 500
  }

  datatype Status = InFlight | Delivered | Failed | Abandoned | Sandbox

  /** The adapter's reading, when there is one, wins over the status code. */
  function Verdict(r: Result, successCodes: set<int>, attempt: nat, accepted: Option<bool>): Status {
    var delivered := if accepted.Some? then accepted.value else r.status.Some? && r.status.value in successCodes;
    if delivered then Delivered
    else if !Retryable(r) || attempt >= MAX_ATTEMPTS then Abandoned
    else Failed
  }

  /**
    A retry records without asking the adapter, so it agrees with a first attempt only where the adapter
    agrees with the codes.
   */
  lemma RetryIgnoresAdapterIff(r: Result, codes: set<int>, attempt: nat, adapter: bool)
    requires r.status.Some?
    ensures Verdict(r, codes, attempt, None) == Verdict(r, codes, attempt, Some(adapter))
            <==> adapter == (r.status.value in codes)
  {
  }

  // --- rows, rules, processes ---

  datatype Request = Request(verb: string, url: string, headers: map<string, string>, body: Option<string>)

  /** What the first failed attempt stores beside the URL; headers are sealed at rest. */
  datatype Kept = Kept(verb: string, headers: map<string, string>, body: Option<string>)

  datatype Rule = Rule(verb: string, hasBody: bool, hasHeaders: bool, hasIntegration: bool, sandbox: bool)

  predicate Plain(r: Rule) { !r.hasBody && !r.hasHeaders && !r.hasIntegration }

  /** A rule with no body, headers or integration prepares its method and URL and nothing else. */
  predicate PreparedBy(rule: Rule, req: Request) {
    Plain(rule) ==> req == Request(rule.verb, req.url, map[], None)
  }

  datatype Key = Key(rule: nat, event: nat)

  datatype Row = Row(status: Status, attempts: nat, url: Option<string>, kept: Option<Kept>)

  datatype Send = Send(key: Key, attempt: nat, request: Request)

  /** A first attempt works from the rule as it read when it claimed; a retry from the row as claimed. */
  datatype Proc =
    | Claimed(key: Key, rule: Rule)
    | Retrying(key: Key, attempt: nat, url: Option<string>, kept: Option<Kept>)
    | Sending(key: Key, attempt: nat, request: Request)

  function AttemptOf(p: Proc): nat { if p.Claimed? then 1 else p.attempt }

  /** `sends` and `requeued` are history: every send, and every delivery someone put back by hand. */
  datatype State = State(rows: map<Key, Row>, rules: map<nat, Rule>, procs: map<nat, Proc>, sends: seq<Send>,
                         requeued: seq<Key>)

  datatype Action =
    | Claim(proc: nat, key: Key)
    | Refuse(proc: nat)                       // credentials unavailable, or the provider does not map the event
    | Rehearse(proc: nat)                     // sandbox rule: record, send nothing
    | Dispatch(proc: nat, request: Request)
    | Answer(proc: nat, result: Result, codes: set<int>, accepted: Option<bool>, canSeal: bool)
    | AnswerThenStop(proc: nat, result: Result, codes: set<int>, accepted: Option<bool>)
    | RetryClaim(proc: nat, key: Key)
    | RetryDispatch(proc: nat)
    | RetryAbandon(proc: nat)
    | Requeue(key: Key)                       // the retry endpoint: failed or abandoned, due at once
    | EditRule(rule: nat, to: Option<Rule>)
    | Stop(proc: nat)

  const Start: State := State(map[], map[], map[], [], [])

  /** The request a retry would send, or none when it must give up instead. */
  function Replay(rules: map<nat, Rule>, p: Proc): Option<Request>
    requires p.Retrying?
  {
    if p.url.None? || p.key.rule !in rules || rules[p.key.rule].sandbox then None
    else if p.kept.Some? then Some(Request(p.kept.value.verb, p.url.value, p.kept.value.headers, p.kept.value.body))
    else if !Plain(rules[p.key.rule]) then None
    else Some(Request(rules[p.key.rule].verb, p.url.value, map[], None))
  }

  function Step(s: State, a: Action): State {
    match a
    case Claim(p, k) =>
      if p in s.procs || k in s.rows || k.rule !in s.rules then s
      else s.(rows := s.rows[k := Row(InFlight, 1, None, None)], procs := s.procs[p := Claimed(k, s.rules[k.rule])])
    case Refuse(p) => if p in s.procs && s.procs[p].Claimed? then Settled(s, p, Abandoned) else s
    case Rehearse(p) =>
      if p in s.procs && s.procs[p].Claimed? && s.procs[p].rule.sandbox then Settled(s, p, Sandbox) else s
    case Dispatch(p, req) =>
      if p in s.procs && s.procs[p].Claimed? && !s.procs[p].rule.sandbox && PreparedBy(s.procs[p].rule, req)
      then Sent(s, p, req) else s
    case Answer(p, result, codes, accepted, canSeal) =>
      if p in s.procs && s.procs[p].Sending? && s.procs[p].key in s.rows
      then Recorded(s, p, result, codes, accepted, true, canSeal) else s
    case AnswerThenStop(p, result, codes, accepted) =>
      if p in s.procs && s.procs[p].Sending? && s.procs[p].key in s.rows
      then Recorded(s, p, result, codes, accepted, false, true) else s
    case RetryClaim(p, k) =>
      if p !in s.procs && k in s.rows && s.rows[k].status == Failed then
        var row := s.rows[k].(status := InFlight, attempts := s.rows[k].attempts + 1);
        s.(rows := s.rows[k := row], procs := s.procs[p := Retrying(k, row.attempts, row.url, row.kept)])
      else s
    case RetryDispatch(p) =>
      if p in s.procs && s.procs[p].Retrying? && Replay(s.rules, s.procs[p]).Some?
      then Sent(s, p, Replay(s.rules, s.procs[p]).value) else s
    case RetryAbandon(p) => if p in s.procs && s.procs[p].Retrying? then Settled(s, p, Abandoned) else s
    case Requeue(k) =>
      if k in s.rows && (s.rows[k].status == Failed || s.rows[k].status == Abandoned)
      then s.(rows := s.rows[k := s.rows[k].(status := Failed)], requeued := s.requeued + [k]) else s
    case EditRule(r, to) => s.(rules := if to.Some? then s.rules[r := to.value] else s.rules - {r})
    case Stop(p) => s.(procs := s.procs - {p})
  }

  /** The process writes a final status and is done. */
  function Settled(s: State, p: nat, status: Status): State
    requires p in s.procs
  {
    var k := s.procs[p].key;
    s.(procs := s.procs - {p}, rows := if k in s.rows then s.rows[k := s.rows[k].(status := status)] else s.rows)
  }

  function Sent(s: State, p: nat, req: Request): State
    requires p in s.procs
  {
    var n := AttemptOf(s.procs[p]);
    s.(sends := s.sends + [Send(s.procs[p].key, n, req)], procs := s.procs[p := Sending(s.procs[p].key, n, req)])
  }

  /**
    Record the verdict on attempt `n`; on a failed first attempt also remember the request. Without a
    key to seal headers with, a request that has headers is abandoned instead. A retry passes no
    adapter reading.
   */
  function RecordedRow(row: Row, n: nat, req: Request, result: Result, codes: set<int>, accepted: Option<bool>,
                       remember: bool, canSeal: bool): Row
  {
    var verdict := Verdict(result, codes, n, if n == 1 then accepted else None);
    var row' := row.(status := verdict, url := if n == 1 then Some(req.url) else row.url);
    if n == 1 && verdict == Failed && remember then
      if req.headers != map[] && !canSeal then row'.(status := Abandoned)
      else row'.(kept := Some(Kept(req.verb, req.headers, req.body)))
    else row'
  }

  function Recorded(s: State, p: nat, result: Result, codes: set<int>, accepted: Option<bool>,
                    remember: bool, canSeal: bool): State
    requires p in s.procs && s.procs[p].Sending? && s.procs[p].key in s.rows
  {
    var Sending(k, n, req) := s.procs[p];
    s.(rows := s.rows[k := RecordedRow(s.rows[k], n, req, result, codes, accepted, remember, canSeal)],
       procs := s.procs - {p})
  }

  function Run(s: State, acts: seq<Action>): State {
    if acts == [] then s else Step(Run(s, acts[..|acts| - 1]), acts[|acts| - 1])
  }

  // --- invariant ---

  ghost function SendsOf(sends: seq<Send>, k: Key): nat {
    if sends == [] then 0
    else SendsOf(sends[..|sends| - 1], k) + (if sends[|sends| - 1].key == k then 1 else 0)
  }

  lemma SendsSnoc(sends: seq<Send>, x: Send, k: Key)
    ensures SendsOf(sends + [x], k) == SendsOf(sends, k) + (if x.key == k then 1 else 0)
  {
    assert (sends + [x])[..|sends|] == sends;
  }

  ghost function RequeuesOf(log: seq<Key>, k: Key): nat {
    if log == [] then 0 else RequeuesOf(log[..|log| - 1], k) + (if log[|log| - 1] == k then 1 else 0)
  }

  /** A process owns an in-flight row, at that row's attempt. */
  ghost predicate Owns(s: State, p: nat) {
    p in s.procs ==>
      var k := s.procs[p].key;
      && k in s.rows && s.rows[k].status == InFlight && s.rows[k].attempts == AttemptOf(s.procs[p])
      && SendsOf(s.sends, k) <= (if s.procs[p].Sending? then s.rows[k].attempts else s.rows[k].attempts - 1)
  }

  ghost predicate Alone(s: State, p: nat, q: nat) {
    p in s.procs && q in s.procs && p != q ==> s.procs[p].key != s.procs[q].key
  }

  ghost predicate RowOk(s: State, k: Key) {
    if k in s.rows then
      && 1 <= s.rows[k].attempts <= MAX_ATTEMPTS + RequeuesOf(s.requeued, k)
      && SendsOf(s.sends, k) <= s.rows[k].attempts
      && (s.rows[k].status == Failed ==> s.rows[k].attempts < MAX_ATTEMPTS + RequeuesOf(s.requeued, k))
    else SendsOf(s.sends, k) == 0
  }

  ghost predicate Inv(s: State) {
    && (forall p {:trigger Owns(s, p)} :: Owns(s, p))
    && (forall p, q {:trigger Alone(s, p, q)} :: Alone(s, p, q))
    && (forall k {:trigger RowOk(s, k)} :: RowOk(s, k))
  }

  /** Any change confined to one process and its row keeps the others. */
  lemma LocalChange(s: State, s': State, p: nat, k: Key)
    requires Inv(s) && Owns(s', p) && RowOk(s', k)
    requires forall q: nat | q != p :: (q in s'.procs <==> q in s.procs) && (q in s.procs ==> s'.procs[q] == s.procs[q])
    requires forall j | j != k :: (j in s'.rows <==> j in s.rows) && (j in s.rows ==> s'.rows[j] == s.rows[j])
    requires s'.requeued == s.requeued && forall j | j != k :: SendsOf(s'.sends, j) == SendsOf(s.sends, j)
    requires forall q: nat | q != p && q in s.procs :: s.procs[q].key != k
    requires p in s'.procs ==> s'.procs[p].key == k
    ensures Inv(s')
  {
    forall q: nat ensures Owns(s', q) { assert Owns(s, q); }
    forall q: nat, r: nat ensures Alone(s', q, r) { assert Alone(s, q, r); }
    forall j ensures RowOk(s', j) { assert RowOk(s, j); }
  }

  lemma SettledKeeps(s: State, p: nat, status: Status)
    requires Inv(s) && p in s.procs && status != InFlight && status != Failed
    ensures Inv(Settled(s, p, status))
  {
    var k := s.procs[p].key;
    assert Owns(s, p) && RowOk(s, k);
    forall q: nat | q != p && q in s.procs ensures s.procs[q].key != k { assert Alone(s, p, q); }
    LocalChange(s, Settled(s, p, status), p, k);
  }

  lemma SentKeeps(s: State, p: nat, req: Request)
    requires Inv(s) && p in s.procs && !s.procs[p].Sending?
    ensures Inv(Sent(s, p, req))
  {
    var k := s.procs[p].key;
    var s' := Sent(s, p, req);
    assert Owns(s, p) && RowOk(s, k);
    forall q: nat | q != p && q in s.procs ensures s.procs[q].key != k { assert Alone(s, p, q); }
    forall j ensures SendsOf(s'.sends, j) == SendsOf(s.sends, j) + (if j == k then 1 else 0) {
      SendsSnoc(s.sends, Send(k, AttemptOf(s.procs[p]), req), j);
    }
    LocalChange(s, s', p, k);
  }

  lemma RecordedKeeps(s: State, p: nat, result: Result, codes: set<int>, accepted: Option<bool>, remember: bool,
                      canSeal: bool)
    requires Inv(s) && p in s.procs && s.procs[p].Sending? && s.procs[p].key in s.rows
    ensures Inv(Recorded(s, p, result, codes, accepted, remember, canSeal))
  {
    var k := s.procs[p].key;
    assert Owns(s, p) && RowOk(s, k);
    forall q: nat | q != p && q in s.procs ensures s.procs[q].key != k { assert Alone(s, p, q); }
    LocalChange(s, Recorded(s, p, result, codes, accepted, remember, canSeal), p, k);
  }

  lemma ClaimKeeps(s: State, a: Action)
    requires Inv(s) && (a.Claim? || a.RetryClaim?)
    ensures Inv(Step(s, a))
  {
    var s' := Step(s, a);
    if s' != s {
      assert RowOk(s, a.key);
      forall q: nat | q in s.procs ensures s.procs[q].key != a.key { assert Owns(s, q); }
      LocalChange(s, s', a.proc, a.key);
    }
  }

  lemma StopKeeps(s: State, p: nat)
    requires Inv(s)
    ensures Inv(Step(s, Stop(p)))
  {
    var s' := Step(s, Stop(p));
    forall q: nat ensures Owns(s', q) { assert Owns(s, q); }
    forall q: nat, r: nat ensures Alone(s', q, r) { assert Alone(s, q, r); }
    forall j ensures RowOk(s', j) { assert RowOk(s, j); }
  }

  lemma RulesDoNotMatter(s: State, rules: map<nat, Rule>)
    requires Inv(s)
    ensures Inv(s.(rules := rules))
  {
    var s' := s.(rules := rules);
    forall q: nat ensures Owns(s', q) { assert Owns(s, q); }
    forall q: nat, r: nat ensures Alone(s', q, r) { assert Alone(s, q, r); }
    forall j ensures RowOk(s', j) { assert RowOk(s, j); }
  }

  lemma RequeueKeeps(s: State, k: Key)
    requires Inv(s)
    ensures Inv(Step(s, Requeue(k)))
  {
    var s' := Step(s, Requeue(k));
    if s' != s {
      assert s'.requeued[..|s.requeued|] == s.requeued;
      forall q: nat ensures Owns(s', q) { assert Owns(s, q); }
      forall q: nat, r: nat ensures Alone(s', q, r) { assert Alone(s, q, r); }
      forall j ensures RowOk(s', j) { assert RowOk(s, j); }
    }
  }

  lemma StepKeeps(s: State, a: Action)
    requires Inv(s)
    ensures Inv(Step(s, a))
  {
    match a
    case Claim(_, _) => ClaimKeeps(s, a);
    case RetryClaim(_, _) => ClaimKeeps(s, a);
    case Refuse(p) => if p in s.procs && s.procs[p].Claimed? { SettledKeeps(s, p, Abandoned); }
    case Rehearse(p) =>
      if p in s.procs && s.procs[p].Claimed? && s.procs[p].rule.sandbox { SettledKeeps(s, p, Sandbox); }
    case RetryAbandon(p) => if p in s.procs && s.procs[p].Retrying? { SettledKeeps(s, p, Abandoned); }
    case Dispatch(p, req) => if Step(s, a) != s { SentKeeps(s, p, req); }
    case RetryDispatch(p) => if Step(s, a) != s { SentKeeps(s, p, Replay(s.rules, s.procs[p]).value); }
    case Answer(p, r, c, acc, seal) => if Step(s, a) != s { RecordedKeeps(s, p, r, c, acc, true, seal); }
    case AnswerThenStop(p, r, c, acc) => if Step(s, a) != s { RecordedKeeps(s, p, r, c, acc, false, true); }
    case EditRule(_, _) => RulesDoNotMatter(s, Step(s, a).rules);
    case Requeue(k) => RequeueKeeps(s, k);
    case Stop(p) => StopKeeps(s, p);
  }

  lemma {:induction false} RunKeeps(s: State, acts: seq<Action>)
    requires Inv(s)
    ensures Inv(Run(s, acts))
  {
    if acts != [] {
      RunKeeps(s, acts[..|acts| - 1]);
      StepKeeps(Run(s, acts[..|acts| - 1]), acts[|acts| - 1]);
    }
  }

  // --- theorems ---

  /**
    In every run each (rule, event) has at most one process at work on it, and at most five sends and
    one more for each time someone put it back by hand.
   */
  lemma AtMostFiveSendsOneAtATime(acts: seq<Action>, k: Key, p: nat, q: nat)
    ensures var s := Run(Start, acts);
            && SendsOf(s.sends, k) <= MAX_ATTEMPTS + RequeuesOf(s.requeued, k)
            && (p in s.procs && q in s.procs && s.procs[p].key == k && s.procs[q].key == k ==> p == q)
  {
    RunKeeps(Start, acts);
    var s := Run(Start, acts);
    assert RowOk(s, k) && Alone(s, p, q);
  }

  /** Nobody is at work on it: finished, or orphaned by a process that stopped. */
  ghost predicate Closed(s: State, k: Key) {
    k in s.rows && s.rows[k].status != Failed && forall p | p in s.procs :: s.procs[p].key != k
  }

  /** A finished row has no process, so it is closed. */
  lemma FinishedIsClosed(s: State, k: Key)
    requires Inv(s) && k in s.rows && s.rows[k].status != Failed && s.rows[k].status != InFlight
    ensures Closed(s, k)
  {
    forall p | p in s.procs ensures s.procs[p].key != k { assert Owns(s, p); }
  }

  lemma {:induction false} SentKeepsClosed(s: State, p: nat, req: Request, k: Key)
    requires Closed(s, k) && p in s.procs
    ensures var s' := Sent(s, p, req);
            Closed(s', k) && s'.rows[k] == s.rows[k] && SendsOf(s'.sends, k) == SendsOf(s.sends, k)
  {
    var x := Send(s.procs[p].key, AttemptOf(s.procs[p]), req);
    assert x.key != k && Sent(s, p, req).sends == s.sends + [x];
    SendsSnoc(s.sends, x, k);
  }

  lemma {:induction false} StepKeepsClosed(s: State, a: Action, k: Key)
    requires Closed(s, k) && (s.rows[k].status == Abandoned ==> a != Requeue(k))
    ensures Closed(Step(s, a), k) && Step(s, a).rows[k] == s.rows[k]
            && SendsOf(Step(s, a).sends, k) == SendsOf(s.sends, k)
  {
    if a.Dispatch? {
      if a.proc in s.procs { SentKeepsClosed(s, a.proc, a.request, k); }
    } else if a.RetryDispatch? {
      if a.proc in s.procs && s.procs[a.proc].Retrying? && Replay(s.rules, s.procs[a.proc]).Some? {
        SentKeepsClosed(s, a.proc, Replay(s.rules, s.procs[a.proc]).value, k);
      }
    } else {
      assert Step(s, a).sends == s.sends;
    }
  }

  /**
    A closed delivery stays as it is, whatever consumers and sweeps do, unless it was abandoned and is put
    back by hand.
   */
  lemma {:induction false} NothingAfterClosed(s: State, acts: seq<Action>, k: Key)
    requires Closed(s, k) && (s.rows[k].status == Abandoned ==> Requeue(k) !in acts)
    ensures var s' := Run(s, acts);
            Closed(s', k) && s'.rows[k] == s.rows[k] && SendsOf(s'.sends, k) == SendsOf(s.sends, k)
  {
    if acts != [] {
      var init, a := acts[..|acts| - 1], acts[|acts| - 1];
      assert a in acts && forall x | x in init :: x in acts;
      NothingAfterClosed(s, init, k);
      StepKeepsClosed(Run(s, init), a, k);
    }
  }

  /**
    In every run: once a delivery is delivered or sandboxed it is never sent again and its row never
    changes; once abandoned, not until it is put back by hand.
   */
  lemma NothingAfterFinished(acts: seq<Action>, more: seq<Action>, k: Key)
    requires k in Run(Start, acts).rows
    requires var status := Run(Start, acts).rows[k].status;
             status == Delivered || status == Sandbox || (status == Abandoned && Requeue(k) !in more)
    ensures var s, s' := Run(Start, acts), Run(Start, acts + more);
            k in s'.rows && s'.rows[k] == s.rows[k] && SendsOf(s'.sends, k) == SendsOf(s.sends, k)
  {
    RunKeeps(Start, acts);
    FinishedIsClosed(Run(Start, acts), k);
    NothingAfterClosed(Run(Start, acts), more, k);
    RunConcat(Start, acts, more);
  }

  /** Under a sandbox rule nothing of the delivery is being sent, and a first attempt knows that it is a rehearsal. */
  ghost predicate Rehearsing(s: State, k: Key) {
    && k.rule in s.rules && s.rules[k.rule].sandbox && SendsOf(s.sends, k) == 0
    && forall p | p in s.procs && s.procs[p].key == k ::
         !s.procs[p].Sending? && (s.procs[p].Claimed? ==> s.procs[p].rule.sandbox)
  }

  lemma SentRehearsing(s: State, p: nat, req: Request, k: Key)
    requires Rehearsing(s, k) && p in s.procs && s.procs[p].key != k
    ensures Rehearsing(Sent(s, p, req), k)
  {
    SendsSnoc(s.sends, Send(s.procs[p].key, AttemptOf(s.procs[p]), req), k);
  }

  lemma QuietRehearsing(s: State, a: Action, k: Key)
    requires Rehearsing(s, k) && !(a.EditRule? && a.rule == k.rule) && !a.Dispatch? && !a.RetryDispatch?
    ensures Rehearsing(Step(s, a), k)
  {
    assert Step(s, a).sends == s.sends;
  }

  lemma StepRehearsing(s: State, a: Action, k: Key)
    requires Rehearsing(s, k) && !(a.EditRule? && a.rule == k.rule)
    ensures Rehearsing(Step(s, a), k)
  {
    if a.Dispatch? {
      if Step(s, a) != s { SentRehearsing(s, a.proc, a.request, k); }
    } else if a.RetryDispatch? {
      if Step(s, a) != s { SentRehearsing(s, a.proc, Replay(s.rules, s.procs[a.proc]).value, k); }
    } else {
      QuietRehearsing(s, a, k);
    }
  }

  /** In every run in which a sandbox rule is left alone, nothing is ever sent under it. */
  lemma {:induction false} SandboxNeverSends(rules: map<nat, Rule>, acts: seq<Action>, k: Key)
    requires k.rule in rules && rules[k.rule].sandbox && forall a | a in acts :: !(a.EditRule? && a.rule == k.rule)
    ensures Rehearsing(Run(Start.(rules := rules), acts), k)
  {
    if acts != [] {
      var init, a := acts[..|acts| - 1], acts[|acts| - 1];
      assert a in acts && forall x | x in init :: x in acts;
      SandboxNeverSends(rules, init, k);
      StepRehearsing(Run(Start.(rules := rules), init), a, k);
    }
  }

  /** A process that stops leaves its delivery in flight, and then nothing ever sends or settles it. */
  lemma StoppedIsOrphaned(acts: seq<Action>, p: nat, more: seq<Action>)
    requires p in Run(Start, acts).procs
    ensures var s := Run(Start, acts);
            var k, s' := s.procs[p].key, Run(Step(s, Stop(p)), more);
            k in s'.rows && s'.rows[k].status == InFlight && SendsOf(s'.sends, k) == SendsOf(s.sends, k)
  {
    RunKeeps(Start, acts);
    var s := Run(Start, acts);
    var k := s.procs[p].key;
    assert Owns(s, p);
    forall q | q in s.procs && q != p ensures s.procs[q].key != k { assert Alone(s, p, q); }
    NothingAfterClosed(Step(s, Stop(p)), more, k);
  }

  /** Put back by hand, a remembered delivery of a live rule is sent again, even after its fifth attempt. */
  lemma RequeueSendsAgain(s: State, k: Key, p: nat)
    requires Inv(s) && k in s.rows && s.rows[k].status == Abandoned && s.rows[k].url.Some? && s.rows[k].kept.Some?
    requires p !in s.procs && k.rule in s.rules && !s.rules[k.rule].sandbox
    ensures var s' := Step(Step(Step(s, Requeue(k)), RetryClaim(p, k)), RetryDispatch(p));
            SendsOf(s'.sends, k) == SendsOf(s.sends, k) + 1
  {
    var s1 := Step(s, Requeue(k));
    var s2 := Step(s1, RetryClaim(p, k));
    assert s2.procs[p].Retrying? && Replay(s2.rules, s2.procs[p]).Some? && s2.sends == s.sends;
    SendsSnoc(s2.sends, Send(k, s2.procs[p].attempt, Replay(s2.rules, s2.procs[p]).value), k);
  }

  /** Trying again could work: they were not reached, or said to come back, or broke. */
  predicate Transient(r: Result) {
    !r.blocked && (r.status.None? || r.status.value in {408, 429} || r.status.value >= 500)
  }

  /** It counts as delivered: the adapter says so or, without an adapter's word, the code is a success code. */
  predicate Succeeded(r: Result, codes: set<int>, reading: Option<bool>) {
    reading == Some(true) || (reading.None? && r.status.Some? && r.status.value in codes)
  }

  /** Delivered, to be tried again, or given up: which of the three an answered attempt ends as. */
  ghost predicate EndsAs(status: Status, n: nat, r: Result, codes: set<int>, reading: Option<bool>, keepable: bool) {
    && (status == Delivered <==> Succeeded(r, codes, reading))
    && (status == Failed <==> !Succeeded(r, codes, reading) && Transient(r) && n < 5 && keepable)
    && (status == Abandoned <==> !Succeeded(r, codes, reading) && !(Transient(r) && n < 5 && keepable))
  }

  /**
    What recording an answer leaves. A first attempt listens to the adapter, notes the URL and, if it is to
    be tried again, the whole request; one whose headers cannot be sealed is given up. A later attempt goes
    by the code alone and changes only the status.
   */
  lemma RecordedRowMeans(row: Row, n: nat, req: Request, r: Result, codes: set<int>, accepted: Option<bool>,
                         remember: bool, canSeal: bool)
    ensures var row' := RecordedRow(row, n, req, r, codes, accepted, remember, canSeal);
            && EndsAs(row'.status, n, r, codes, if n == 1 then accepted else None,
                      n == 1 && remember ==> req.headers == map[] || canSeal)
            && row'.attempts == row.attempts
            && row'.url == (if n == 1 then Some(req.url) else row.url)
            && row'.kept == (if n == 1 && remember && row'.status == Failed
                             then Some(Kept(req.verb, req.headers, req.body)) else row.kept)
  {
  }

  /** The `n`th action answers a send of the delivery with a success. */
  ghost predicate SucceedsAt(s: State, acts: seq<Action>, k: Key, n: nat) {
    && n < |acts| && (acts[n].Answer? || acts[n].AnswerThenStop?)
    && var procs := Run(s, acts[..n]).procs;
       && acts[n].proc in procs && procs[acts[n].proc].Sending? && procs[acts[n].proc].key == k
       && Succeeded(acts[n].result, acts[n].codes, if procs[acts[n].proc].attempt == 1 then acts[n].accepted else None)
  }

  ghost predicate EverSent(s: State, k: Key) { exists i | 0 <= i < |s.sends| :: s.sends[i].key == k }

  /** Being sent means having been sent; a sandboxed delivery, and one just claimed, was not. */
  ghost predicate ProcHonest(s: State, p: nat) {
    p in s.procs ==>
      && (s.procs[p].Sending? ==> EverSent(s, s.procs[p].key))
      && (s.procs[p].Claimed? ==> !EverSent(s, s.procs[p].key))
  }

  ghost predicate RowHonest(s: State, k: Key) {
    && (k !in s.rows ==> !EverSent(s, k))
    && (k in s.rows && s.rows[k].status == Delivered ==> EverSent(s, k))
    && (k in s.rows && s.rows[k].status == Sandbox ==> !EverSent(s, k))
  }

  ghost predicate Honest(s: State) {
    && (forall p {:trigger ProcHonest(s, p)} :: ProcHonest(s, p))
    && (forall k {:trigger RowHonest(s, k)} :: RowHonest(s, k))
  }

  lemma SentEver(s: State, p: nat, req: Request, k: Key)
    requires p in s.procs
    ensures EverSent(Sent(s, p, req), k) <==> EverSent(s, k) || k == s.procs[p].key
  {
    var s' := Sent(s, p, req);
    assert s'.sends[|s.sends|].key == s.procs[p].key;
    if EverSent(s, k) {
      var i :| 0 <= i < |s.sends| && s.sends[i].key == k;
      assert s'.sends[i].key == k;
    }
  }

  lemma SentHonest(s: State, p: nat, req: Request)
    requires Inv(s) && Honest(s) && p in s.procs && !s.procs[p].Sending?
    ensures Honest(Sent(s, p, req))
  {
    var s' := Sent(s, p, req);
    assert Owns(s, p);
    forall q: nat ensures ProcHonest(s', q) {
      assert ProcHonest(s, q) && Alone(s, p, q);
      if q in s'.procs { SentEver(s, p, req, s'.procs[q].key); }
    }
    forall k ensures RowHonest(s', k) {
      assert RowHonest(s, k);
      SentEver(s, p, req, k);
    }
  }

  lemma StepHonest(s: State, a: Action)
    requires Inv(s) && Honest(s)
    ensures Honest(Step(s, a))
  {
    var s' := Step(s, a);
    if a.Dispatch? {
      if s' != s { SentHonest(s, a.proc, a.request); }
    } else if a.RetryDispatch? {
      if s' != s { SentHonest(s, a.proc, Replay(s.rules, s.procs[a.proc]).value); }
    } else {
      QuietHonest(s, a);
    }
  }

  lemma QuietHonest(s: State, a: Action)
    requires Inv(s) && Honest(s) && !a.Dispatch? && !a.RetryDispatch?
    ensures Honest(Step(s, a))
  {
    var s' := Step(s, a);
    assert s'.sends == s.sends;
    forall k ensures EverSent(s', k) <==> EverSent(s, k) { }
    if a.Claim? || a.RetryClaim? { assert RowHonest(s, a.key); }
    forall q: nat ensures ProcHonest(s', q) { assert ProcHonest(s, q); }
    if a.Answer? || a.AnswerThenStop? || a.Rehearse? || a.Refuse? || a.RetryAbandon? { assert ProcHonest(s, a.proc); }
    forall k ensures RowHonest(s', k) { assert RowHonest(s, k); }
  }

  lemma {:induction false} RunHonest(acts: seq<Action>)
    ensures Honest(Run(Start, acts))
  {
    if acts == [] {
      forall p: nat ensures ProcHonest(Start, p) { }
      forall k ensures RowHonest(Start, k) { }
    } else {
      var init, a := acts[..|acts| - 1], acts[|acts| - 1];
      RunHonest(init);
      RunKeeps(Start, init);
      StepHonest(Run(Start, init), a);
    }
  }

  /** Only an answer that is a success makes a delivery delivered. */
  lemma BecomesDelivered(s: State, a: Action, k: Key)
    requires k in Step(s, a).rows && Step(s, a).rows[k].status == Delivered
    requires k in s.rows ==> s.rows[k].status != Delivered
    ensures a.Answer? || a.AnswerThenStop?
    ensures a.proc in s.procs && s.procs[a.proc].Sending? && s.procs[a.proc].key == k
    ensures Succeeded(a.result, a.codes, if s.procs[a.proc].attempt == 1 then a.accepted else None)
  {
  }

  lemma {:induction false} DeliveredWasAnswered(s: State, acts: seq<Action>, k: Key) returns (n: nat)
    requires k in Run(s, acts).rows && Run(s, acts).rows[k].status == Delivered
    requires k in s.rows ==> s.rows[k].status != Delivered
    ensures SucceedsAt(s, acts, k, n)
  {
    var init, a := acts[..|acts| - 1], acts[|acts| - 1];
    var m := Run(s, init);
    if k in m.rows && m.rows[k].status == Delivered {
      n := DeliveredWasAnswered(s, init, k);
      assert init[..n] == acts[..n];
    } else {
      n := |init|;
      assert acts[..n] == init;
      BecomesDelivered(m, a, k);
    }
  }

  /**
    In every run a delivery marked as delivered was sent and some send of it was answered with a success,
    and one marked as a rehearsal was never sent.
   */
  lemma StatusIsTrue(acts: seq<Action>, k: Key)
    requires k in Run(Start, acts).rows
    ensures var s := Run(Start, acts);
            && (s.rows[k].status == Sandbox ==> !EverSent(s, k))
            && (s.rows[k].status == Delivered ==> EverSent(s, k) && exists n: nat :: SucceedsAt(Start, acts, k, n))
  {
    RunHonest(acts);
    assert RowHonest(Run(Start, acts), k);
    if Run(Start, acts).rows[k].status == Delivered { var n := DeliveredWasAnswered(Start, acts, k); }
  }

  /**
    When an answer is recorded no sweep will touch the delivery again exactly when it was delivered, the
    answer was no reason to try again, the fifth attempt is spent, or its headers cannot be kept for a retry.
   */
  lemma AnswerClosesIff(s: State, p: nat, r: Result, codes: set<int>, accepted: Option<bool>, canSeal: bool)
    requires Inv(s) && p in s.procs && s.procs[p].Sending?
    ensures var Sending(k, n, req) := s.procs[p];
            var reading := if n == 1 then accepted else None;
            var delivered := if reading.Some? then reading.value else r.status.Some? && r.status.value in codes;
            Closed(Step(s, Answer(p, r, codes, accepted, canSeal)), k)
            <==> delivered || !Transient(r) || n >= 5 || (n == 1 && req.headers != map[] && !canSeal)
  {
    assert Owns(s, p);
    forall q | q in s.procs && q != p ensures s.procs[q].key != s.procs[p].key { assert Alone(s, p, q); }
  }

  // --- a resend repeats the first send ---

  /** The first request sent for a delivery. */
  ghost function FirstSend(sends: seq<Send>, k: Key): Option<Request> {
    if sends == [] then None
    else if sends[0].key == k then Some(sends[0].request)
    else FirstSend(sends[1..], k)
  }

  lemma {:induction false} FirstSendSnoc(sends: seq<Send>, x: Send, k: Key)
    ensures FirstSend(sends + [x], k)
            == if FirstSend(sends, k).Some? then FirstSend(sends, k)
               else if x.key == k then Some(x.request) else None
  {
    if sends == [] {
      assert sends + [x] == [x];
    } else {
      assert (sends + [x])[1..] == sends[1..] + [x];
      FirstSendSnoc(sends[1..], x, k);
    }
  }

  /** What a stored row knows of the first request. */
  ghost predicate Remembers(first: Option<Request>, url: Option<string>, kept: Option<Kept>) {
    && (url.Some? ==> first.Some? && first.value.url == url.value)
    && (kept.Some? ==> first.Some? && kept.value == Kept(first.value.verb, first.value.headers, first.value.body))
  }

  ghost predicate ProcKnows(s: State, p: nat) {
    p in s.procs ==>
      var first := FirstSend(s.sends, s.procs[p].key);
      && (s.procs[p].Claimed? ==> first.None?)
      && (s.procs[p].Retrying? ==> Remembers(first, s.procs[p].url, s.procs[p].kept))
      && (s.procs[p].Sending? ==> first.Some? && (s.procs[p].attempt == 1 ==> first == Some(s.procs[p].request)))
  }

  ghost predicate RowKnows(s: State, k: Key) {
    var first := FirstSend(s.sends, k);
    if k in s.rows then Remembers(first, s.rows[k].url, s.rows[k].kept) else first.None?
  }

  /** What is stored about a request is always what was first sent. */
  ghost predicate Knows(s: State) {
    && (forall p {:trigger ProcKnows(s, p)} :: ProcKnows(s, p))
    && (forall k {:trigger RowKnows(s, k)} :: RowKnows(s, k))
  }

  ghost predicate SendReplays(s: State, i: nat) {
    i < |s.sends| ==> FirstSend(s.sends, s.sends[i].key) == Some(s.sends[i].request)
  }

  /** Every send so far repeats the first of its delivery. */
  ghost predicate AllAlike(s: State) { forall i {:trigger SendReplays(s, i)} :: SendReplays(s, i) }

  lemma SentFirst(s: State, p: nat, req: Request, j: Key)
    requires p in s.procs
    ensures var k := s.procs[p].key;
            FirstSend(Sent(s, p, req).sends, j)
            == if j == k && FirstSend(s.sends, k).None? then Some(req) else FirstSend(s.sends, j)
  {
    FirstSendSnoc(s.sends, Send(s.procs[p].key, AttemptOf(s.procs[p]), req), j);
  }

  lemma SentKnows(s: State, p: nat, req: Request)
    requires Inv(s) && Knows(s) && p in s.procs && !s.procs[p].Sending?
    requires s.procs[p].Retrying? ==> FirstSend(s.sends, s.procs[p].key).Some? && s.procs[p].attempt != 1
    ensures Knows(Sent(s, p, req))
  {
    var s' := Sent(s, p, req);
    var k := s.procs[p].key;
    forall j
      ensures FirstSend(s'.sends, j)
              == if j == k && FirstSend(s.sends, k).None? then Some(req) else FirstSend(s.sends, j)
    {
      SentFirst(s, p, req, j);
    }
    assert ProcKnows(s, p) && Owns(s, p);
    forall q: nat ensures ProcKnows(s', q) { assert ProcKnows(s, q) && Alone(s, p, q); }
    forall j ensures RowKnows(s', j) { assert RowKnows(s, j); }
  }

  /** A process retries from the second attempt on. */
  ghost predicate SecondOn(s: State, p: nat) { p in s.procs && s.procs[p].Retrying? ==> s.procs[p].attempt >= 2 }

  lemma QuietKnows(s: State, a: Action)
    requires Inv(s) && Knows(s) && !a.Dispatch? && !a.RetryDispatch?
    ensures Knows(Step(s, a))
  {
    var s' := Step(s, a);
    assert s'.sends == s.sends;
    if a.Answer? || a.AnswerThenStop? { assert ProcKnows(s, a.proc) && Owns(s, a.proc); }
    if a.Claim? || a.RetryClaim? { assert RowKnows(s, a.key); }
    forall q: nat ensures ProcKnows(s', q) { assert ProcKnows(s, q); }
    forall j ensures RowKnows(s', j) { assert RowKnows(s, j); }
  }

  lemma StepSecondOn(s: State, a: Action)
    requires Inv(s) && forall p {:trigger SecondOn(s, p)} :: SecondOn(s, p)
    ensures forall p {:trigger SecondOn(Step(s, a), p)} :: SecondOn(Step(s, a), p)
  {
    if a.RetryClaim? { assert RowOk(s, a.key); }
    forall p: nat ensures SecondOn(Step(s, a), p) { assert SecondOn(s, p); }
  }

  lemma StepKnows(s: State, a: Action)
    requires Inv(s) && Knows(s) && forall p {:trigger SecondOn(s, p)} :: SecondOn(s, p)
    ensures Knows(Step(s, a))
  {
    if a.Dispatch? || a.RetryDispatch? {
      if Step(s, a) != s {
        assert ProcKnows(s, a.proc) && SecondOn(s, a.proc);
        SentKnows(s, a.proc, if a.Dispatch? then a.request else Replay(s.rules, s.procs[a.proc]).value);
      }
    } else {
      QuietKnows(s, a);
    }
  }

  lemma {:induction false} RunKnows(rules: map<nat, Rule>, acts: seq<Action>)
    ensures var s := Run(Start.(rules := rules), acts);
            Inv(s) && Knows(s) && forall p {:trigger SecondOn(s, p)} :: SecondOn(s, p)
  {
    var start := Start.(rules := rules);
    if acts != [] {
      var init, a := acts[..|acts| - 1], acts[|acts| - 1];
      RunKnows(rules, init);
      StepKeeps(Run(start, init), a);
      StepSecondOn(Run(start, init), a);
      StepKnows(Run(start, init), a);
    }
  }

  /**
    A resend that has no remembered request to go by, where the rule's method is no longer the first one's
    or the first request had headers or a body.
   */
  ghost predicate Strays(s: State, a: Action) {
    && a.RetryDispatch? && a.proc in s.procs && s.procs[a.proc].Retrying? && Replay(s.rules, s.procs[a.proc]).Some?
    && s.procs[a.proc].kept.None?
    && var k := s.procs[a.proc].key;
       var first := FirstSend(s.sends, k);
       && first.Some?
       && (s.rules[k.rule].verb != first.value.verb || first.value.headers != map[] || first.value.body != None)
  }

  lemma SentAlikeIff(s: State, p: nat, req: Request)
    requires p in s.procs
    ensures var first := FirstSend(s.sends, s.procs[p].key);
            AllAlike(Sent(s, p, req)) <==> AllAlike(s) && (first.Some? ==> first == Some(req))
  {
    var s' := Sent(s, p, req);
    var k, n := s.procs[p].key, |s.sends|;
    forall j
      ensures FirstSend(s'.sends, j)
              == if j == k && FirstSend(s.sends, k).None? then Some(req) else FirstSend(s.sends, j)
    {
      SentFirst(s, p, req, j);
    }
    if AllAlike(s') {
      assert SendReplays(s', n);
      forall i: nat ensures SendReplays(s, i) {
        assert SendReplays(s', i);
        if i < n { FirstSendExists(s.sends, i); }
      }
    } else if AllAlike(s) && (FirstSend(s.sends, k).Some? ==> FirstSend(s.sends, k) == Some(req)) {
      forall i: nat ensures SendReplays(s', i) { assert SendReplays(s, i); }
    }
  }

  lemma {:induction false} FirstSendExists(sends: seq<Send>, i: nat)
    requires i < |sends|
    ensures FirstSend(sends, sends[i].key).Some?
  {
    if i > 0 && sends[0].key != sends[i].key { FirstSendExists(sends[1..], i - 1); }
  }

  lemma StepAlikeIff(s: State, a: Action)
    requires Knows(s)
    ensures AllAlike(Step(s, a)) <==> AllAlike(s) && !Strays(s, a)
  {
    if a.Dispatch? && Step(s, a) != s {
      assert ProcKnows(s, a.proc);
      SentAlikeIff(s, a.proc, a.request);
    } else if a.RetryDispatch? && a.proc in s.procs && s.procs[a.proc].Retrying?
      && Replay(s.rules, s.procs[a.proc]).Some? {
      assert ProcKnows(s, a.proc);
      SentAlikeIff(s, a.proc, Replay(s.rules, s.procs[a.proc]).value);
    } else {
      assert Step(s, a).sends == s.sends;
      SameSends(s, Step(s, a));
    }
  }

  lemma SameSends(s: State, s': State)
    requires s'.sends == s.sends
    ensures AllAlike(s') <==> AllAlike(s)
  {
    if AllAlike(s) { forall i: nat ensures SendReplays(s', i) { assert SendReplays(s, i); } }
    if AllAlike(s') { forall i: nat ensures SendReplays(s, i) { assert SendReplays(s', i); } }
  }

  /** The `n`th step of the run strays. */
  ghost predicate StraysAt(s: State, acts: seq<Action>, n: nat) { n < |acts| && Strays(Run(s, acts[..n]), acts[n]) }

  lemma StraysAtPrefix(s: State, init: seq<Action>, a: Action, n: nat)
    ensures StraysAt(s, init + [a], n)
            <==> if n < |init| then StraysAt(s, init, n) else n == |init| && Strays(Run(s, init), a)
  {
    if n <= |init| { assert (init + [a])[..n] == init[..n]; }
    assert init[..|init|] == init;
  }

  /**
    In every run, every send of a delivery repeats the first one's method, URL, headers and body exactly
    when no retry goes by a rule instead of a remembered request and the rule no longer describes the first.
   */
  lemma {:induction false} ResendsRepeatTheFirstIff(rules: map<nat, Rule>, acts: seq<Action>)
    ensures var start := Start.(rules := rules);
            AllAlike(Run(start, acts)) <==> forall n {:trigger StraysAt(start, acts, n)} :: !StraysAt(start, acts, n)
  {
    var start := Start.(rules := rules);
    if acts == [] {
      forall i: nat ensures SendReplays(start, i) { }
    } else {
      var init, a := acts[..|acts| - 1], acts[|acts| - 1];
      assert acts == init + [a];
      ResendsRepeatTheFirstIff(rules, init);
      RunKnows(rules, init);
      StepAlikeIff(Run(start, init), a);
      StraysLast(start, init, a);
    }
  }

  lemma StraysLast(s: State, init: seq<Action>, a: Action)
    ensures (forall n {:trigger StraysAt(s, init + [a], n)} :: !StraysAt(s, init + [a], n))
            <==> (forall n {:trigger StraysAt(s, init, n)} :: !StraysAt(s, init, n)) && !Strays(Run(s, init), a)
  {
    if forall n {:trigger StraysAt(s, init + [a], n)} :: !StraysAt(s, init + [a], n) {
      forall n: nat ensures !StraysAt(s, init, n) {
        StraysAtPrefix(s, init, a, n);
        assert !StraysAt(s, init + [a], n);
      }
      StraysAtPrefix(s, init, a, |init|);
      assert !StraysAt(s, init + [a], |init|);
    } else {
      var n: nat :| StraysAt(s, init + [a], n);
      StraysAtPrefix(s, init, a, n);
    }
  }

  // --- what keeps retries from straying ---

  ghost predicate ProcPinned(s: State, p: nat) {
    p in s.procs && s.procs[p].Claimed? ==>
      s.procs[p].key.rule in s.rules && s.rules[s.procs[p].key.rule] == s.procs[p].rule
  }

  ghost predicate KeyPinned(s: State, k: Key) {
    FirstSend(s.sends, k).Some? ==> k.rule in s.rules && PreparedBy(s.rules[k.rule], FirstSend(s.sends, k).value)
  }

  /** While no rule is edited, the rule still describes what it first sent. */
  ghost predicate Pinned(s: State) {
    && (forall p {:trigger ProcPinned(s, p)} :: ProcPinned(s, p))
    && (forall k {:trigger KeyPinned(s, k)} :: KeyPinned(s, k))
  }

  lemma StepPinned(s: State, a: Action)
    requires Inv(s) && Knows(s) && Pinned(s) && !a.EditRule?
    ensures Pinned(Step(s, a)) && !Strays(s, a)
  {
    var s' := Step(s, a);
    if (a.Dispatch? || a.RetryDispatch?) && s' != s {
      var k := s.procs[a.proc].key;
      assert ProcPinned(s, a.proc) && ProcKnows(s, a.proc) && KeyPinned(s, k);
      var req := if a.Dispatch? then a.request else Replay(s.rules, s.procs[a.proc]).value;
      forall j ensures KeyPinned(s', j) { SentFirst(s, a.proc, req, j); assert KeyPinned(s, j); }
    } else {
      assert s'.sends == s.sends;
      forall j ensures KeyPinned(s', j) { assert KeyPinned(s, j); }
    }
    forall q: nat ensures ProcPinned(s', q) { assert ProcPinned(s, q); }
  }

  ghost predicate ProcHolds(s: State, p: nat) {
    p in s.procs && s.procs[p].Retrying? && s.procs[p].url.Some? ==> s.procs[p].kept.Some?
  }

  ghost predicate RowHolds(s: State, k: Key) {
    k in s.rows && s.rows[k].url.Some? && (s.rows[k].status == Failed || s.rows[k].attempts > 1) ==>
      s.rows[k].kept.Some?
  }

  /** Every delivery that may be sent again has its request remembered. */
  ghost predicate Holds(s: State) {
    && (forall p {:trigger ProcHolds(s, p)} :: ProcHolds(s, p))
    && (forall k {:trigger RowHolds(s, k)} :: RowHolds(s, k))
  }

  /**
    No process stops between recording a failure and remembering it, and nothing is put back that was sent but
    not remembered.
   */
  predicate Minded(s: State, a: Action) {
    && !a.AnswerThenStop?
    && (a.Requeue? && a.key in s.rows && s.rows[a.key].url.Some? ==> s.rows[a.key].kept.Some?)
  }

  lemma StepHolds(s: State, a: Action)
    requires Inv(s) && Holds(s) && Minded(s, a)
    ensures Holds(Step(s, a)) && !Strays(s, a)
  {
    var s' := Step(s, a);
    if a.RetryDispatch? { assert ProcHolds(s, a.proc); }
    if a.Answer? { assert Owns(s, a.proc); if a.proc in s.procs { assert RowOk(s, s.procs[a.proc].key); } }
    if a.RetryClaim? { assert RowHolds(s, a.key); }
    forall q: nat ensures ProcHolds(s', q) { assert ProcHolds(s, q); }
    forall j ensures RowHolds(s', j) { assert RowHolds(s, j); }
  }

  lemma {:induction false} PinnedNeverStrays(rules: map<nat, Rule>, acts: seq<Action>)
    requires forall a | a in acts :: !a.EditRule?
    ensures var start := Start.(rules := rules);
            Pinned(Run(start, acts)) && forall n {:trigger StraysAt(start, acts, n)} :: !StraysAt(start, acts, n)
  {
    var start := Start.(rules := rules);
    if acts != [] {
      var init, a := acts[..|acts| - 1], acts[|acts| - 1];
      assert acts == init + [a] && a in acts && forall x | x in init :: x in acts;
      PinnedNeverStrays(rules, init);
      RunKnows(rules, init);
      StepPinned(Run(start, init), a);
      StraysLast(start, init, a);
    }
  }

  ghost predicate MindedAt(s: State, acts: seq<Action>, n: nat) { n < |acts| ==> Minded(Run(s, acts[..n]), acts[n]) }

  lemma {:induction false} MindedNeverStrays(rules: map<nat, Rule>, acts: seq<Action>)
    requires var start := Start.(rules := rules);
             forall n {:trigger MindedAt(start, acts, n)} :: MindedAt(start, acts, n)
    ensures var start := Start.(rules := rules);
            Holds(Run(start, acts)) && forall n {:trigger StraysAt(start, acts, n)} :: !StraysAt(start, acts, n)
  {
    var start := Start.(rules := rules);
    if acts != [] {
      var init, a := acts[..|acts| - 1], acts[|acts| - 1];
      assert acts == init + [a];
      assert MindedAt(start, acts, |init|);
      forall n: nat ensures MindedAt(start, init, n) {
        assert MindedAt(start, acts, n);
        if n < |init| { assert acts[..n] == init[..n]; }
      }
      MindedNeverStrays(rules, init);
      RunKnows(rules, init);
      StepHolds(Run(start, init), a);
      StraysLast(start, init, a);
    }
  }

  /**
    So every send repeats the first as long as no rule is edited; or as long as no process stops between
    recording a failure and remembering its request and nothing is put back that was sent but not remembered.
   */
  lemma ResendsRepeatTheFirst(rules: map<nat, Rule>, acts: seq<Action>)
    requires var start := Start.(rules := rules);
             || (forall a | a in acts :: !a.EditRule?)
             || forall n {:trigger MindedAt(start, acts, n)} :: MindedAt(start, acts, n)
    ensures AllAlike(Run(Start.(rules := rules), acts))
  {
    if forall a | a in acts :: !a.EditRule? { PinnedNeverStrays(rules, acts); } else { MindedNeverStrays(rules, acts); }
    ResendsRepeatTheFirstIff(rules, acts);
  }

  lemma RunStep(s: State, acts: seq<Action>, a: Action)
    ensures Run(s, acts + [a]) == Step(Run(s, acts), a)
  {
    assert (acts + [a])[..|acts + [a]| - 1] == acts;
  }

  /** A first send that fails while its process stops leaves a failed row with nothing remembered. */
  lemma SentAndLost(start: seq<Action>, k: Key, rule: Rule, req: Request) returns (acts: seq<Action>)
    requires !rule.sandbox && PreparedBy(rule, req)
    requires Run(Start.(rules := map[k.rule := rule]), start) == Start.(rules := map[k.rule := rule])
    ensures Run(Start.(rules := map[k.rule := rule]), acts)
            == State(map[k := Row(Failed, 1, Some(req.url), None)], map[k.rule := rule], map[], [Send(k, 1, req)], [])
  {
    var init := Start.(rules := map[k.rule := rule]);
    var a1 := start + [Claim(0, k)];
    RunStep(init, start, Claim(0, k));
    assert Run(init, a1)
             == State(map[k := Row(InFlight, 1, None, None)], map[k.rule := rule], map[0 := Claimed(k, rule)], [], []);
    var a2 := a1 + [Dispatch(0, req)];
    RunStep(init, a1, Dispatch(0, req));
    var lost := AnswerThenStop(0, Result(None, false), {}, None);
    acts := a2 + [lost];
    RunStep(init, a2, lost);
  }

  /**
    Both together break it: the request is lost with the process, the rule's method then edited, and the retry
    uses the new one.
   */
  lemma LostRequestThenEditedRule(start: seq<Action>, k: Key, rule: Rule, verb: string, url: string)
    returns (acts: seq<Action>)
    requires Run(Start.(rules := map[k.rule := rule]), start) == Start.(rules := map[k.rule := rule])
    requires Plain(rule) && !rule.sandbox
    ensures var req := Request(rule.verb, url, map[], None);
            Run(Start.(rules := map[k.rule := rule]), acts).sends == [Send(k, 1, req), Send(k, 2, req.(verb := verb))]
  {
    var init := Start.(rules := map[k.rule := rule]);
    var rule' := rule.(verb := verb);
    var a3 := SentAndLost(start, k, rule, Request(rule.verb, url, map[], None));
    var a4 := a3 + [EditRule(k.rule, Some(rule'))];
    RunStep(init, a3, EditRule(k.rule, Some(rule')));
    assert Run(init, a4).rules == map[k.rule := rule'];
    acts := RetriedFromRule(init, a4, k, rule', url);
  }

  /** A failed delivery with nothing remembered is retried with whatever method its rule has by then. */
  lemma RetriedFromRule(init: State, before: seq<Action>, k: Key, rule: Rule, url: string) returns (acts: seq<Action>)
    requires Plain(rule) && !rule.sandbox
    requires var s := Run(init, before);
             s.rows == map[k := Row(Failed, 1, Some(url), None)] && s.rules == map[k.rule := rule] && s.procs == map[]
    ensures Run(init, acts).sends == Run(init, before).sends + [Send(k, 2, Request(rule.verb, url, map[], None))]
  {
    var a1 := before + [RetryClaim(1, k)];
    RunStep(init, before, RetryClaim(1, k));
    assert Run(init, a1).procs == map[1 := Retrying(k, 2, Some(url), None)];
    acts := a1 + [RetryDispatch(1)];
    RunStep(init, a1, RetryDispatch(1));
  }

  /** A refused first send leaves an abandoned row with its URL and nothing else. */
  lemma SentAndRefused(start: seq<Action>, k: Key, rule: Rule, req: Request) returns (acts: seq<Action>)
    requires !rule.sandbox && PreparedBy(rule, req)
    requires Run(Start.(rules := map[k.rule := rule]), start) == Start.(rules := map[k.rule := rule])
    ensures Run(Start.(rules := map[k.rule := rule]), acts)
            == State(map[k := Row(Abandoned, 1, Some(req.url), None)], map[k.rule := rule], map[],
                     [Send(k, 1, req)], [])
    ensures acts == start + [Claim(0, k)] + [Dispatch(0, req)] + [Answer(0, Result(Some(404), false), {}, None, true)]
  {
    var init := Start.(rules := map[k.rule := rule]);
    var a1 := start + [Claim(0, k)];
    RunStep(init, start, Claim(0, k));
    assert Run(init, a1)
             == State(map[k := Row(InFlight, 1, None, None)], map[k.rule := rule], map[0 := Claimed(k, rule)], [], []);
    var a2 := a1 + [Dispatch(0, req)];
    RunStep(init, a1, Dispatch(0, req));
    var refused := Answer(0, Result(Some(404), false), {}, None, true);
    acts := a2 + [refused];
    RunStep(init, a2, refused);
  }

  /** No crash is needed: a refused delivery is put back by hand after its rule's method was edited. */
  lemma RequeuedAfterEditedRule(start: seq<Action>, k: Key, rule: Rule, verb: string, url: string)
    returns (acts: seq<Action>)
    requires Run(Start.(rules := map[k.rule := rule]), start) == Start.(rules := map[k.rule := rule])
    requires Plain(rule) && !rule.sandbox
    ensures var req := Request(rule.verb, url, map[], None);
            Run(Start.(rules := map[k.rule := rule]), acts).sends == [Send(k, 1, req), Send(k, 2, req.(verb := verb))]
  {
    var init := Start.(rules := map[k.rule := rule]);
    var rule' := rule.(verb := verb);
    var a3 := SentAndRefused(start, k, rule, Request(rule.verb, url, map[], None));
    var a4 := a3 + [EditRule(k.rule, Some(rule'))];
    RunStep(init, a3, EditRule(k.rule, Some(rule')));
    assert Run(init, a4).rules == map[k.rule := rule'];
    var a5 := a4 + [Requeue(k)];
    RunStep(init, a4, Requeue(k));
    assert Run(init, a5).rows == map[k := Row(Failed, 1, Some(url), None)] && Run(init, a5).procs == map[];
    acts := RetriedFromRule(init, a5, k, rule', url);
  }

  // --- the worker's own methods, as runs of the protocol ---

  lemma RunTwo(s: State, a: Action, b: Action)
    ensures Run(s, [a]) == Step(s, a)
    ensures Run(s, [a, b]) == Step(Step(s, a), b)
  {
    RunStep(s, [], a);
    assert [] + [a] == [a];
    RunStep(s, [a], b);
    assert [a] + [b] == [a, b];
  }

  lemma {:induction false} RunConcat(s: State, first: seq<Action>, second: seq<Action>)
    ensures Run(s, first + second) == Run(Run(s, first), second)
  {
    if second == [] {
      assert first + second == first;
    } else {
      var init, a := second[..|second| - 1], second[|second| - 1];
      assert first + second == (first + init) + [a] && second == init + [a];
      RunConcat(s, first, init);
      RunStep(s, first + init, a);
    }
  }

  /** What one process does with a delivery it holds, from its claim to its verdict. */
  lemma SendAndRecord(s: State, p: nat, send: Action, answer: Action, req: Request)
    requires p in s.procs && !s.procs[p].Sending? && s.procs[p].key in s.rows && Step(s, send) == Sent(s, p, req)
    requires answer.Answer? && answer.proc == p
    ensures var k, n := s.procs[p].key, AttemptOf(s.procs[p]);
            Run(s, [send, answer])
            == s.(rows := s.rows[k := RecordedRow(s.rows[k], n, req, answer.result, answer.codes, answer.accepted,
                                                  true, answer.canSeal)],
                  procs := s.procs - {p}, sends := s.sends + [Send(k, n, req)])
  {
    RunTwo(s, send, answer);
    assert s.procs[p := Sending(s.procs[p].key, AttemptOf(s.procs[p]), req)] - {p} == s.procs - {p};
  }

  /** As `Replay`, but a stored request whose headers cannot be opened is given up too. */
  function ToResend(rules: map<nat, Rule>, c: Proc, canOpen: bool): Option<Request>
    requires c.Retrying?
  {
    if c.kept.Some? && !canOpen then None else Replay(rules, c)
  }

  function RetriedRow(row: Row, rules: map<nat, Rule>, c: Proc, answer: Result, codes: set<int>,
                      canOpen: bool): (r: Row)
    requires c.Retrying?
    ensures r.status != InFlight && r.attempts == row.attempts
  {
    var req := ToResend(rules, c, canOpen);
    if req.None? then row.(status := Abandoned)
    else RecordedRow(row, c.attempt, req.value, answer, codes, None, true, true)
  }

  function Resent(rules: map<nat, Rule>, c: Proc, canOpen: bool): seq<Send>
    requires c.Retrying?
  {
    var req := ToResend(rules, c, canOpen);
    if req.None? then [] else [Send(c.key, c.attempt, req.value)]
  }

  /** The rule can still be sent for: it exists, is live and a URL was noted for it. */
  predicate Live(row: Row, k: Key, rules: map<nat, Rule>) {
    row.url.Some? && k.rule in rules && !rules[k.rule].sandbox
  }

  /** The request to send again: the one remembered or, without one, what a plain rule makes of the URL. */
  function Again(row: Row, k: Key, rules: map<nat, Rule>, canOpen: bool): Option<Request> {
    if !Live(row, k, rules) then None
    else if row.kept.Some? then
      if canOpen then Some(Request(row.kept.value.verb, row.url.value, row.kept.value.headers, row.kept.value.body))
      else None
    else if rules[k.rule].hasBody || rules[k.rule].hasHeaders || rules[k.rule].hasIntegration then None
    else Some(Request(rules[k.rule].verb, row.url.value, map[], None))
  }

  /** A retried row: charged one attempt, and given up if there is nothing to send, else settled by the code. */
  ghost predicate Resettled(row: Row, row': Row, k: Key, rules: map<nat, Rule>, r: Result, codes: set<int>,
                            canOpen: bool)
  {
    && row'.attempts == row.attempts + 1
    && (Again(row, k, rules, canOpen).None? ==>
          row'.status == Abandoned && row'.url == row.url && row'.kept == row.kept)
    && (Again(row, k, rules, canOpen).Some? && row.attempts > 0 ==>
          EndsAs(row'.status, row.attempts + 1, r, codes, None, true) && row'.url == row.url && row'.kept == row.kept)
  }

  lemma RetriedRowMeans(row: Row, taken: Row, k: Key, rules: map<nat, Rule>, r: Result, codes: set<int>, canOpen: bool)
    requires taken == row.(status := InFlight, attempts := row.attempts + 1)
    ensures Resettled(row, RetriedRow(taken, rules, Returned(k, row), r, codes, canOpen), k, rules, r, codes, canOpen)
    ensures Resent(rules, Returned(k, row), canOpen)
            == if Again(row, k, rules, canOpen).Some?
               then [Send(k, row.attempts + 1, Again(row, k, rules, canOpen).value)] else []
  {
    var c := Returned(k, row);
    if ToResend(rules, c, canOpen).Some? {
      RecordedRowMeans(taken, c.attempt, ToResend(rules, c, canOpen).value, r, codes, None, true, true);
    }
  }

  ghost function RetryActs(rules: map<nat, Rule>, p: nat, c: Proc, answer: Result, codes: set<int>,
                           canOpen: bool): seq<Action>
    requires c.Retrying?
  {
    if ToResend(rules, c, canOpen).None? then [RetryAbandon(p)]
    else [RetryDispatch(p), Answer(p, answer, codes, None, true)]
  }

  /** Finishing one claimed retry is a run of the protocol that leaves everything else alone. */
  lemma RetryIsARun(s: State, p: nat, answer: Result, codes: set<int>, canOpen: bool)
    requires p in s.procs && s.procs[p].Retrying? && s.procs[p].key in s.rows
    ensures var c := s.procs[p];
            Run(s, RetryActs(s.rules, p, c, answer, codes, canOpen))
            == State(s.rows[c.key := RetriedRow(s.rows[c.key], s.rules, c, answer, codes, canOpen)], s.rules,
                     s.procs - {p}, s.sends + Resent(s.rules, c, canOpen), s.requeued)
  {
    var c := s.procs[p];
    var req := ToResend(s.rules, c, canOpen);
    if req.None? {
      RunTwo(s, RetryAbandon(p), RetryAbandon(p));
      assert s.sends + [] == s.sends;
    } else {
      SendAndRecord(s, p, RetryDispatch(p), Answer(p, answer, codes, None, true), req.value);
    }
  }

  /** The rows after one claiming statement over `due`. */
  function Taken(rows: map<Key, Row>, due: seq<Key>): map<Key, Row> {
    map k | k in rows :: if k in due then rows[k].(status := InFlight, attempts := rows[k].attempts + 1) else rows[k]
  }

  function Returned(k: Key, row: Row): Proc { Retrying(k, row.attempts + 1, row.url, row.kept) }

  function ReturnedAll(rows: map<Key, Row>, due: seq<Key>): seq<Proc>
    requires forall k | k in due :: k in rows
  {
    seq(|due|, i requires 0 <= i < |due| => Returned(due[i], rows[due[i]]))
  }

  /** Claimed rows still to be worked through, from the `i`th on. */
  ghost function Remaining(claimed: seq<Proc>, i: nat): map<nat, Proc> {
    map p: nat | i <= p < |claimed| :: claimed[p]
  }

  predicate Distinct(due: seq<Key>) { forall i, j | 0 <= i < j < |due| :: due[i] != due[j] }

  /** Claiming one more row after a batch is claiming the longer batch. */
  lemma TakeOneMore(rows: map<Key, Row>, due: seq<Key>, k: Key)
    requires k in rows && k !in due && forall j | j in due :: j in rows
    ensures Taken(rows, due)[k] == rows[k]
    ensures Taken(rows, due + [k])
            == Taken(rows, due)[k := rows[k].(status := InFlight, attempts := rows[k].attempts + 1)]
    ensures ReturnedAll(rows, due + [k]) == ReturnedAll(rows, due) + [Returned(k, rows[k])]
    ensures Remaining(ReturnedAll(rows, due + [k]), 0)
              == Remaining(ReturnedAll(rows, due), 0)[|due| := Returned(k, rows[k])]
  {
    assert ReturnedAll(rows, due + [k]) == ReturnedAll(rows, due) + [Returned(k, rows[k])];
  }

  lemma ClaimOneMore(s: State, mid: State, due: seq<Key>, k: Key)
    requires k in s.rows && s.rows[k].status == Failed && k !in due && forall j | j in due :: j in s.rows
    requires mid == s.(rows := Taken(s.rows, due), procs := Remaining(ReturnedAll(s.rows, due), 0))
    ensures Step(mid, RetryClaim(|due|, k))
            == s.(rows := Taken(s.rows, due + [k]), procs := Remaining(ReturnedAll(s.rows, due + [k]), 0))
  {
    TakeOneMore(s.rows, due, k);
  }

  /** The one claiming statement does what claiming its rows one after another does. */
  lemma {:induction false} BatchClaimIsARun(s: State, due: seq<Key>) returns (acts: seq<Action>)
    requires s.procs == map[] && Distinct(due) && forall k | k in due :: k in s.rows && s.rows[k].status == Failed
    ensures Run(s, acts) == s.(rows := Taken(s.rows, due), procs := Remaining(ReturnedAll(s.rows, due), 0))
  {
    if due == [] {
      acts := [];
      assert Taken(s.rows, []) == s.rows && Remaining(ReturnedAll(s.rows, []), 0) == map[];
    } else {
      var n := |due| - 1;
      var init, k := due[..n], due[n];
      assert due == init + [k] && k in due && forall j | j in init :: j in due;
      var before := BatchClaimIsARun(s, init);
      var mid := s.(rows := Taken(s.rows, init), procs := Remaining(ReturnedAll(s.rows, init), 0));
      ClaimOneMore(s, mid, init, k);
      acts := before + [RetryClaim(n, k)];
      RunStep(s, before, RetryClaim(n, k));
    }
  }

  lemma TakenIsUnswept(rows: map<Key, Row>, due: seq<Key>)
    ensures Swept(Taken(rows, due), Taken(rows, due), due, 0)
  {
  }

  lemma SweptAll(rows: map<Key, Row>, was: map<Key, Row>, due: seq<Key>)
    requires Swept(rows, Taken(was, due), due, |due|) && forall k | k in due :: k in was
    ensures rows.Keys == was.Keys
    ensures forall k | k in rows && k !in due :: rows[k] == was[k]
    ensures forall k | k in due :: rows[k].status != InFlight && rows[k].attempts == was[k].attempts + 1
  {
    assert due[..|due|] == due;
  }

  /** Part-way through a sweep: the first `i` are settled, the rest are as they were claimed. */
  ghost predicate Swept(rows: map<Key, Row>, taken: map<Key, Row>, due: seq<Key>, i: nat)
    requires i <= |due|
  {
    && rows.Keys == taken.Keys
    && (forall k | k in rows :: rows[k].attempts == taken[k].attempts)
    && (forall k | k in rows && k !in due[..i] :: rows[k] == taken[k])
    && (forall k | k in due[..i] && k in rows :: rows[k].status != InFlight)
  }

  lemma SweptOneMore(rows: map<Key, Row>, taken: map<Key, Row>, due: seq<Key>, i: nat, row: Row)
    requires i < |due| && due[i] in rows && Swept(rows, taken, due, i)
    requires row.attempts == taken[due[i]].attempts && row.status != InFlight
    ensures Swept(rows[due[i] := row], taken, due, i + 1)
  {
    assert due[..i + 1] == due[..i] + [due[i]];
  }

  /** Working through the `i`th claimed row extends the run that claimed the batch. */
  lemma SweepStep(init: State, acts: seq<Action>, s: State, claimed: seq<Proc>, i: nat, answer: Result, codes: set<int>,
                  canOpen: bool)
    requires Run(init, acts) == s && i < |claimed| && s.procs == Remaining(claimed, i)
    requires claimed[i].Retrying? && claimed[i].key in s.rows
    ensures var c := claimed[i];
            Run(init, acts + RetryActs(s.rules, i, c, answer, codes, canOpen))
            == State(s.rows[c.key := RetriedRow(s.rows[c.key], s.rules, c, answer, codes, canOpen)], s.rules,
                     Remaining(claimed, i + 1), s.sends + Resent(s.rules, c, canOpen), s.requeued)
  {
    assert Remaining(claimed, i) - {i} == Remaining(claimed, i + 1);
    RetryIsARun(s, i, answer, codes, canOpen);
    RunConcat(init, acts, RetryActs(s.rules, i, claimed[i], answer, codes, canOpen));
  }

  /** The rows after one process after another claims the keys of `ks`. */
  function ClaimedAll(rows: map<Key, Row>, ks: seq<Key>): map<Key, Row> {
    if ks == [] then rows
    else
      var before, k := ClaimedAll(rows, ks[..|ks| - 1]), ks[|ks| - 1];
      if k in before then before else before[k := Row(InFlight, 1, None, None)]
  }

  predicate Wins(rows: map<Key, Row>, ks: seq<Key>, i: nat)
    requires i < |ks|
  {
    ks[i] !in ClaimedAll(rows, ks[..i])
  }

  lemma {:induction false} ClaimedKeys(rows: map<Key, Row>, ks: seq<Key>, k: Key)
    ensures k in ClaimedAll(rows, ks) <==> k in rows || k in ks
  {
    if ks != [] {
      ClaimedKeys(rows, ks[..|ks| - 1], k);
      assert ks == ks[..|ks| - 1] + [ks[|ks| - 1]];
    }
  }

  /** Of any claims on a delivery, the first wins if there was no row yet, and no other does. */
  lemma ExactlyOneClaimWins(rows: map<Key, Row>, ks: seq<Key>, i: nat)
    requires i < |ks|
    ensures Wins(rows, ks, i) <==> ks[i] !in rows && forall j | 0 <= j < i :: ks[j] != ks[i]
  {
    ClaimedKeys(rows, ks[..i], ks[i]);
  }

  /**
    The row a first attempt leaves: given up if there is nothing to send, a rehearsal under a sandbox rule,
    else settled by the answer, with the URL noted and the request remembered if it is to be tried again.
   */
  ghost predicate FirstSettled(row: Row, rule: Rule, prepared: Option<Request>, answer: Result, codes: set<int>,
                               accepted: Option<bool>, canSeal: bool)
  {
    && row.attempts == 1
    && if prepared.None? then row.status == Abandoned
       else if rule.sandbox then row.status == Sandbox
       else
         var req := prepared.value;
         && EndsAs(row.status, 1, answer, codes, accepted, req.headers == map[] || canSeal)
         && row.url == Some(req.url)
         && row.kept == if row.status == Failed then Some(Kept(req.verb, req.headers, req.body)) else None
  }

  lemma FirstRowMeans(row: Row, rule: Rule, req: Request, answer: Result, codes: set<int>, accepted: Option<bool>,
                      canSeal: bool)
    requires row == Row(InFlight, 1, None, None) && !rule.sandbox
    ensures FirstSettled(RecordedRow(row, 1, req, answer, codes, accepted, true, canSeal), rule, Some(req), answer,
                         codes, accepted, canSeal)
  {
    RecordedRowMeans(row, 1, req, answer, codes, accepted, true, canSeal);
  }

  /** What a sweep sends, over the first `n` rows due. */
  function SentAgain(rows: map<Key, Row>, due: seq<Key>, rules: map<nat, Rule>, canOpen: seq<bool>, n: nat): seq<Send>
    requires n <= |due| == |canOpen| && forall k | k in due :: k in rows
  {
    if n == 0 then []
    else
      var k := due[n - 1];
      var req := Again(rows[k], k, rules, canOpen[n - 1]);
      SentAgain(rows, due, rules, canOpen, n - 1)
      + if req.Some? then [Send(k, rows[k].attempts + 1, req.value)] else []
  }

  lemma {:induction false} SentAgainIsShort(rows: map<Key, Row>, due: seq<Key>, rules: map<nat, Rule>,
                                            canOpen: seq<bool>, n: nat)
    requires n <= |due| == |canOpen| && forall k | k in due :: k in rows
    ensures |SentAgain(rows, due, rules, canOpen, n)| <= n
  {
    if n > 0 { SentAgainIsShort(rows, due, rules, canOpen, n - 1); }
  }

  /** The first `n` rows due are settled. */
  ghost predicate ResettledAll(was: map<Key, Row>, rows: map<Key, Row>, due: seq<Key>, rules: map<nat, Rule>,
                               answers: seq<Result>, codes: seq<set<int>>, canOpen: seq<bool>, n: nat)
    requires n <= |due| && |answers| == |due| && |codes| == |due| && |canOpen| == |due|
  {
    forall i | 0 <= i < n ::
      && due[i] in was && due[i] in rows
      && Resettled(was[due[i]], rows[due[i]], due[i], rules, answers[i], codes[i], canOpen[i])
  }

  lemma ResettledOneMore(was: map<Key, Row>, rows: map<Key, Row>, due: seq<Key>, rules: map<nat, Rule>,
                         answers: seq<Result>, codes: seq<set<int>>, canOpen: seq<bool>, n: nat, row: Row)
    requires n < |due| && |answers| == |due| && |codes| == |due| && |canOpen| == |due| && Distinct(due)
    requires ResettledAll(was, rows, due, rules, answers, codes, canOpen, n) && due[n] in was
    requires Resettled(was[due[n]], row, due[n], rules, answers[n], codes[n], canOpen[n])
    ensures ResettledAll(was, rows[due[n] := row], due, rules, answers, codes, canOpen, n + 1)
  {
  }

  /** The sweep has worked through the first `n` rows due. */
  ghost predicate Progress(was: map<Key, Row>, rows: map<Key, Row>, before: seq<Send>, sends: seq<Send>,
                           due: seq<Key>, rules: map<nat, Rule>, answers: seq<Result>, codes: seq<set<int>>,
                           canOpen: seq<bool>, n: nat)
    requires n <= |due| && |answers| == |due| && |codes| == |due| && |canOpen| == |due|
    requires forall k | k in due :: k in was
  {
    && Swept(rows, Taken(was, due), due, n)
    && ResettledAll(was, rows, due, rules, answers, codes, canOpen, n)
    && sends == before + SentAgain(was, due, rules, canOpen, n)
  }

  lemma ProgressOne(was: map<Key, Row>, rows: map<Key, Row>, before: seq<Send>, sends: seq<Send>, due: seq<Key>,
                    rules: map<nat, Rule>, answers: seq<Result>, codes: seq<set<int>>, canOpen: seq<bool>, n: nat)
    requires n < |due| && |answers| == |due| && |codes| == |due| && |canOpen| == |due| && Distinct(due)
    requires forall k | k in due :: k in was
    requires Progress(was, rows, before, sends, due, rules, answers, codes, canOpen, n)
    ensures var k := due[n];
            var c := Returned(k, was[k]);
            && k in rows
            && Progress(was, rows[k := RetriedRow(rows[k], rules, c, answers[n], codes[n], canOpen[n])], before,
                        sends + Resent(rules, c, canOpen[n]), due, rules, answers, codes, canOpen, n + 1)
            && SentAgain(was, due, rules, canOpen, n + 1)
               == SentAgain(was, due, rules, canOpen, n) + Resent(rules, c, canOpen[n])
            && |Resent(rules, c, canOpen[n])| <= 1
  {
    var k := due[n];
    assert k in due && k !in due[..n];
    var row := RetriedRow(rows[k], rules, Returned(k, was[k]), answers[n], codes[n], canOpen[n]);
    RetriedRowMeans(was[k], rows[k], k, rules, answers[n], codes[n], canOpen[n]);
    ResettledOneMore(was, rows, due, rules, answers, codes, canOpen, n, row);
    SweptOneMore(rows, Taken(was, due), due, n, row);
  }

  /** The rows once the sweep has worked through the first `n` due. */
  function RowsAfter(was: map<Key, Row>, due: seq<Key>, rules: map<nat, Rule>, answers: seq<Result>,
                     codes: seq<set<int>>, canOpen: seq<bool>, n: nat): (r: map<Key, Row>)
    requires n <= |due| && |answers| == |due| && |codes| == |due| && |canOpen| == |due|
    requires forall k | k in due :: k in was
    ensures r.Keys == was.Keys
  {
    if n == 0 then Taken(was, due)
    else
      var rows, k := RowsAfter(was, due, rules, answers, codes, canOpen, n - 1), due[n - 1];
      rows[k := RetriedRow(rows[k], rules, Returned(k, was[k]), answers[n - 1], codes[n - 1], canOpen[n - 1])]
  }

  lemma {:induction false} SweepProgresses(was: map<Key, Row>, before: seq<Send>, due: seq<Key>, rules: map<nat, Rule>,
                                           answers: seq<Result>, codes: seq<set<int>>, canOpen: seq<bool>, n: nat)
    requires n <= |due| && |answers| == |due| && |codes| == |due| && |canOpen| == |due| && Distinct(due)
    requires forall k | k in due :: k in was
    ensures Progress(was, RowsAfter(was, due, rules, answers, codes, canOpen, n), before,
                     before + SentAgain(was, due, rules, canOpen, n), due, rules, answers, codes, canOpen, n)
  {
    if n == 0 {
      TakenIsUnswept(was, due);
    } else {
      var rows := RowsAfter(was, due, rules, answers, codes, canOpen, n - 1);
      var sends := before + SentAgain(was, due, rules, canOpen, n - 1);
      SweepProgresses(was, before, due, rules, answers, codes, canOpen, n - 1);
      ProgressOne(was, rows, before, sends, due, rules, answers, codes, canOpen, n - 1);
    }
  }

  /** The sweep so far is a run of the protocol. */
  lemma {:induction false} SweepIsARun(init: State, start: seq<Action>, due: seq<Key>, answers: seq<Result>,
                                       codes: seq<set<int>>, canOpen: seq<bool>, n: nat)
    returns (acts: seq<Action>)
    requires n <= |due| && |answers| == |due| && |codes| == |due| && |canOpen| == |due|
    requires (forall k | k in due :: k in init.rows) && Distinct(due)
    requires Run(init, start)
             == init.(rows := Taken(init.rows, due), procs := Remaining(ReturnedAll(init.rows, due), 0))
    ensures Run(init, acts)
            == init.(rows := RowsAfter(init.rows, due, init.rules, answers, codes, canOpen, n),
                     procs := Remaining(ReturnedAll(init.rows, due), n),
                     sends := init.sends + SentAgain(init.rows, due, init.rules, canOpen, n))
  {
    if n == 0 {
      acts := start;
      assert init.sends + [] == init.sends;
    } else {
      var claimed := ReturnedAll(init.rows, due);
      var before := SweepIsARun(init, start, due, answers, codes, canOpen, n - 1);
      var s := Run(init, before);
      assert due[n - 1] in due && claimed[n - 1] == Returned(due[n - 1], init.rows[due[n - 1]]);
      SweepStep(init, before, s, claimed, n - 1, answers[n - 1], codes[n - 1], canOpen[n - 1]);
      acts := before + RetryActs(s.rules, n - 1, claimed[n - 1], answers[n - 1], codes[n - 1], canOpen[n - 1]);
      SentOneMore(init.rows, due, init.rules, canOpen, n);
      Regroup(init.sends, SentAgain(init.rows, due, init.rules, canOpen, n - 1),
              Resent(init.rules, claimed[n - 1], canOpen[n - 1]));
    }
  }

  lemma Regroup(a: seq<Send>, b: seq<Send>, c: seq<Send>)
    ensures (a + b) + c == a + (b + c)
  {
  }

  lemma SentOneMore(was: map<Key, Row>, due: seq<Key>, rules: map<nat, Rule>, canOpen: seq<bool>, n: nat)
    requires 0 < n <= |due| == |canOpen| && forall k | k in due :: k in was
    ensures due[n - 1] in was
    ensures var c := Returned(due[n - 1], was[due[n - 1]]);
            SentAgain(was, due, rules, canOpen, n)
            == SentAgain(was, due, rules, canOpen, n - 1) + Resent(rules, c, canOpen[n - 1])
            && |Resent(rules, c, canOpen[n - 1])| <= 1
  {
    assert due[n - 1] in due;
  }

  class DeliveryLog {
    var rows: map<Key, Row>
    var sends: seq<Send>

    ghost function At(rules: map<nat, Rule>, procs: map<nat, Proc>): State
      reads this
    {
      State(rows, rules, procs, sends, [])
    }

    /** Insert-or-ignore on (rule, event): exactly one caller ever wins a key. */
    method Claim(k: Key) returns (won: bool)
      modifies this`rows
      ensures rows == ClaimedAll(old(rows), [k]) && (won <==> Wins(old(rows), [k], 0))
    {
      assert [k][..0] == [] && ClaimedAll(rows, []) == rows;
      won := k !in rows;
      if won { rows := rows[k := Row(InFlight, 1, None, None)]; }
    }

    /** Carry out an attempt already claimed: send, then record and, after a first failure, remember. */
    method Attempt(k: Key, n: nat, request: Request, answer: Result, codes: set<int>, accepted: Option<bool>,
                   canSeal: bool)
      requires k in rows
      modifies this
      ensures rows == old(rows)[k := RecordedRow(old(rows)[k], n, request, answer, codes, accepted, true, canSeal)]
      ensures sends == old(sends) + [Send(k, n, request)]
    {
      sends := sends + [Send(k, n, request)];
      rows := rows[k := RecordedRow(rows[k], n, request, answer, codes, accepted, true, canSeal)];
    }

    /**
      One matching rule for one event. `prepared` is none when credentials are unavailable or the
      provider does not take the event. The call is a run of the protocol, settles the row it
      claimed, and sends at most once, only when it won the claim and the rule is live.
     */
    method Deliver(k: Key, rules: map<nat, Rule>, prepared: Option<Request>, answer: Result, codes: set<int>,
                   accepted: Option<bool>, canSeal: bool)
      returns (ghost acts: seq<Action>)
      requires k.rule in rules && (prepared.Some? ==> PreparedBy(rules[k.rule], prepared.value))
      modifies this
      ensures At(rules, map[]) == Run(old(At(rules, map[])), acts)
      ensures sends == if k !in old(rows) && prepared.Some? && !rules[k.rule].sandbox
                       then old(sends) + [Send(k, 1, prepared.value)] else old(sends)
      ensures k in rows && (k in old(rows) ==> rows == old(rows))
      ensures k !in old(rows) ==>
                rows == old(rows)[k := rows[k]]
                && FirstSettled(rows[k], rules[k.rule], prepared, answer, codes, accepted, canSeal)
    {
      ghost var init := At(rules, map[]);
      acts := [];
      var won := Claim(k);
      if !won { return; }
      ghost var held := At(rules, map[0 := Claimed(k, rules[k.rule])]);
      assert Step(init, Action.Claim(0, k)) == held;
      assert held.procs - {0} == map[];
      if prepared.None? {
        rows := rows[k := rows[k].(status := Abandoned)];
        acts := [Action.Claim(0, k), Refuse(0)];
        RunTwo(init, acts[0], acts[1]);
      } else if rules[k.rule].sandbox {
        rows := rows[k := rows[k].(status := Sandbox)];
        acts := [Action.Claim(0, k), Rehearse(0)];
        RunTwo(init, acts[0], acts[1]);
      } else {
        FirstRowMeans(rows[k], rules[k.rule], prepared.value, answer, codes, accepted, canSeal);
        Attempt(k, 1, prepared.value, answer, codes, accepted, canSeal);
        ghost var record := Answer(0, answer, codes, accepted, canSeal);
        SendAndRecord(held, 0, Dispatch(0, prepared.value), record, prepared.value);
        RunTwo(init, Action.Claim(0, k), record);
        acts := [Action.Claim(0, k)] + [Dispatch(0, prepared.value), record];
        RunConcat(init, [Action.Claim(0, k)], [Dispatch(0, prepared.value), record]);
      }
    }

    /** One claimed row: give it up, or send the request again and record the answer. */
    method RetryOne(c: Proc, rules: map<nat, Rule>, answer: Result, codes: set<int>, canOpen: bool) returns (sent: bool)
      requires c.Retrying? && c.key in rows
      modifies this
      ensures rows == old(rows)[c.key := RetriedRow(old(rows)[c.key], rules, c, answer, codes, canOpen)]
      ensures sends == old(sends) + Resent(rules, c, canOpen) && (sent <==> Resent(rules, c, canOpen) != [])
    {
      var request := ToResend(rules, c, canOpen);
      sent := request.Some?;
      if sent {
        Attempt(c.key, c.attempt, request.value, answer, codes, None, true);
      } else {
        rows := rows[c.key := rows[c.key].(status := Abandoned)];
      }
    }

    /** Work through the rows one claiming statement took. */
    method WorkThrough(ghost was: map<Key, Row>, due: seq<Key>, claimed: seq<Proc>, rules: map<nat, Rule>,
                       answers: seq<Result>, codes: seq<set<int>>, canOpen: seq<bool>)
      returns (retried: nat)
      requires |answers| == |due| && |codes| == |due| && |canOpen| == |due|
      requires (forall k | k in due :: k in was) && claimed == ReturnedAll(was, due) && rows == Taken(was, due)
      modifies this
      ensures rows == RowsAfter(was, due, rules, answers, codes, canOpen, |due|)
      ensures sends == old(sends) + SentAgain(was, due, rules, canOpen, |due|)
      ensures retried == |SentAgain(was, due, rules, canOpen, |due|)|
    {
      retried := 0;
      for i := 0 to |due|
        invariant rows == RowsAfter(was, due, rules, answers, codes, canOpen, i)
        invariant sends == old(sends) + SentAgain(was, due, rules, canOpen, i)
        invariant retried == |SentAgain(was, due, rules, canOpen, i)|
      {
        SentOneMore(was, due, rules, canOpen, i + 1);
        Regroup(old(sends), SentAgain(was, due, rules, canOpen, i), Resent(rules, claimed[i], canOpen[i]));
        var sent := RetryOne(claimed[i], rules, answers[i], codes[i], canOpen[i]);
        if sent { retried := retried + 1; }
      }
    }

    /**
      One retry sweep: claim the due rows in one statement, then work through them. Which failed rows
      are due, and in what order, is the database's choice. The sweep is a run of the protocol; it
      leaves no claimed row in flight, charges each exactly one attempt and touches no other row.
     */
    method RetryDue(due: seq<Key>, rules: map<nat, Rule>, answers: seq<Result>, codes: seq<set<int>>,
                    canOpen: seq<bool>)
      returns (retried: nat, ghost acts: seq<Action>)
      requires Distinct(due) && forall k | k in due :: k in rows && rows[k].status == Failed
      requires |answers| == |due| && |codes| == |due| && |canOpen| == |due|
      modifies this
      ensures At(rules, map[]) == Run(old(At(rules, map[])), acts)
      ensures |sends| == |old(sends)| + retried && retried <= |due|
      ensures rows.Keys == old(rows).Keys
      ensures forall k | k in rows && k !in due :: rows[k] == old(rows)[k]
      ensures forall k | k in due :: rows[k].status != InFlight && rows[k].attempts == old(rows)[k].attempts + 1
      ensures ResettledAll(old(rows), rows, due, rules, answers, codes, canOpen, |due|)
      ensures sends == old(sends) + SentAgain(old(rows), due, rules, canOpen, |due|)
    {
      ghost var init := At(rules, map[]);
      var claimed := ReturnedAll(rows, due);
      rows := Taken(rows, due);
      retried := WorkThrough(old(rows), due, claimed, rules, answers, codes, canOpen);
      ghost var start := BatchClaimIsARun(init, due);
      acts := SweepIsARun(init, start, due, answers, codes, canOpen, |due|);
      assert Remaining(claimed, |due|) == map[];
      SweepProgresses(old(rows), old(sends), due, rules, answers, codes, canOpen, |due|);
      SweptAll(rows, old(rows), due);
      SentAgainIsShort(old(rows), due, rules, canOpen, |due|);
    }
  }
}
