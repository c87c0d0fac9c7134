/** The run-wide ledger of external Skill discovery: reservations, consumption, and replay. */
module DiscoveryAttempts {
  import opened Wrappers

  const MAX_QUERIES := 3
  const MAX_SELECTIONS := 2

  datatype Mode = Off | Official | Community

  /** A summary that its field validator accepts: what the ledger needs of it. */
  datatype Summary = Summary(mode: Mode, queries: nat, selected: nat, text: string)

  datatype Failure = Cancelled | Raised(code: string)

  datatype Budget = Budget(queries: nat, selections: nat)

  datatype State = Started | Completed(summary: Summary) | Failed(failure: Failure)

  /** An attempt of one run; the request digest identifies it. */
  datatype Row = Row(digest: string, reserved: Budget, consumed: Budget, state: State, startedAt: nat, finishedAt: Option<nat>)

  type Ledger = seq<Row>

  predicate Within(a: Budget, b: Budget) {
    a.queries <= b.queries && a.selections <= b.selections
  }

  const LIMIT := Budget(MAX_QUERIES, MAX_SELECTIONS)

  const NOTHING := Budget(0, 0)

  /** The checks on a stored row. */
  predicate ValidRow(r: Row) {
    && Within(r.reserved, LIMIT) && Within(r.consumed, r.reserved)
    && (if r.state.Started? then r.consumed == NOTHING && r.finishedAt.None?
        else r.finishedAt.Some? && r.startedAt <= r.finishedAt.value)
  }

  /** A started attempt is charged its reservation, a finished one what it consumed. */
  function Charge(r: Row): Budget {
    if r.state.Started? then r.reserved else r.consumed
  }

  function Plus(a: Budget, b: Budget): Budget {
    Budget(a.queries + b.queries, a.selections + b.selections)
  }

  function Charged(l: Ledger): Budget {
    if l == [] then NOTHING else Plus(Charged(l[..|l| - 1]), Charge(l[|l| - 1]))
  }

  function Find(l: Ledger, digest: string): (i: int)
    ensures i < 0 ==> forall k | 0 <= k < |l| :: l[k].digest != digest
    ensures i >= 0 ==> i < |l| && l[i].digest == digest
  {
    if l == [] then -1
    else
      var i := Find(l[..|l| - 1], digest);
      if i >= 0 then i else if l[|l| - 1].digest == digest then |l| - 1 else -1
  }

  // Answers.

  datatype Answer =
    | Execute(budget: Budget)
    | Replay(summary: Summary)
    | Done(summary: Summary)
    | StoredFailure(code: string)
    | Conflict
    | Invalid
    | Integrity

  /** The run-wide budget, or an integrity failure when the ledger says more was spent than there is. */
  function UsedBudget(l: Ledger): Result<Budget, Answer> {
    if exists k :: 0 <= k < |l| && !ValidRow(l[k]) then Err(Integrity)
    else if !Within(Charged(l), LIMIT) then Err(Integrity) else Ok(Charged(l))
  }

  function Granted(requested: Budget, used: Budget): Budget
    requires Within(used, LIMIT)
  {
    var q := if requested.queries < MAX_QUERIES - used.queries then requested.queries else MAX_QUERIES - used.queries;
    var s := if requested.selections < MAX_SELECTIONS - used.selections then requested.selections
             else MAX_SELECTIONS - used.selections;
    if q == 0 || s == 0 then NOTHING else Budget(q, s)
  }

  const CANCELLED_TEXT := "task_request_cancelled"

  /** What an attempt that exists already answers to a new claim. */
  function Resolve(r: Row, mode: Mode): (a: Answer)
    ensures !a.Execute?
  {
    if !ValidRow(r) then Integrity
    else match r.state
         case Started => Conflict
         case Completed(s) => if s.mode == mode then Replay(s) else Integrity
         case Failed(Cancelled) => Replay(Summary(mode, 0, 0, CANCELLED_TEXT))
         case Failed(Raised(code)) => StoredFailure(code)
  }

  predicate HasStarted(l: Ledger) {
    exists k :: 0 <= k < |l| && l[k].state.Started?
  }

  predicate HasBrokenStarted(l: Ledger) {
    exists k :: 0 <= k < |l| && l[k].state.Started? && !ValidRow(l[k])
  }

  // Operations, each one transaction.

  datatype Operation =
    | Claim(digest: string, mode: Mode, requested: Budget, now: nat)
    | Complete(digest: string, mode: Mode, summary: Summary, now: nat)
    | Fail(digest: string, failure: Failure, now: nat)

  function AfterClaim(l: Ledger, digest: string, mode: Mode, requested: Budget, now: nat): (Ledger, Answer) {
    if !Within(requested, LIMIT) then (l, Invalid)
    else
      var i := Find(l, digest);
      if i >= 0 then (l, Resolve(l[i], mode))
      else if HasStarted(l) then (l, if HasBrokenStarted(l) then Integrity else Conflict)
      else
        var used := UsedBudget(l);
        if used.Err? then (l, used.error)
        else
          var granted := Granted(requested, used.value);
          (l + [Row(digest, granted, NOTHING, Started, now, None)], Execute(granted))
  }

  /** The started attempt with this digest, if its row is in order. */
  function Open(l: Ledger, digest: string): (i: int)
    ensures i >= 0 ==> i < |l| && l[i].digest == digest && l[i].state.Started? && ValidRow(l[i])
  {
    var i := Find(l, digest);
    if i < 0 || !ValidRow(l[i]) || !l[i].state.Started? then -1 else i
  }

  /** Close an attempt; a clock that went backwards makes the row invalid and the transaction is rolled back. */
  function Close(l: Ledger, i: nat, state: State, consumed: Budget, now: nat): Option<Ledger>
    requires i < |l|
  {
    var r := l[i].(state := state, consumed := consumed, finishedAt := Some(now));
    if ValidRow(r) then Some(l[i := r]) else None
  }

  function AfterComplete(l: Ledger, digest: string, mode: Mode, summary: Summary, now: nat): (Ledger, Answer) {
    if summary.mode != mode then (l, Integrity)
    else
      var i := Open(l, digest);
      var spent := Budget(summary.queries, summary.selected);
      if i < 0 || !Within(spent, l[i].reserved) then (l, Integrity)
      else
        var closed := Close(l, i, Completed(summary), spent, now);
        if closed.None? then (l, Integrity) else (closed.value, Done(summary))
  }

  /** A failed attempt consumes all that it reserved; the failure is raised either way. */
  function AfterFail(l: Ledger, digest: string, failure: Failure, now: nat): (Ledger, Answer) {
    var i := Open(l, digest);
    if i < 0 then (l, Integrity)
    else
      var closed := Close(l, i, Failed(failure), l[i].reserved, now);
      if closed.None? then (l, Integrity)
      else (closed.value, StoredFailure(if failure.Cancelled? then CANCELLED_TEXT else failure.code))
  }

  function Apply(l: Ledger, op: Operation): (Ledger, Answer) {
    match op
    case Claim(d, m, q, now) => AfterClaim(l, d, m, q, now)
    case Complete(d, m, s, now) => AfterComplete(l, d, m, s, now)
    case Fail(d, f, now) => AfterFail(l, d, f, now)
  }

  // Runs.

  datatype Event = Event(op: Operation, answer: Answer)

  datatype History = History(ledger: Ledger, events: seq<Event>)

  function Run(ops: seq<Operation>): History {
    if ops == [] then History([], [])
    else
      var before := Run(ops[..|ops| - 1]);
      var op := ops[|ops| - 1];
      var (ledger, answer) := Apply(before.ledger, op);
      History(ledger, before.events + [Event(op, answer)])
  }

  /** The digests that were told to execute, in order. */
  function Executions(events: seq<Event>): seq<string> {
    if events == [] then []
    else
      var e := events[|events| - 1];
      Executions(events[..|events| - 1]) + if e.answer.Execute? && e.op.Claim? then [e.op.digest] else []
  }

  function Digests(l: Ledger): seq<string> {
    seq(|l|, i requires 0 <= i < |l| => l[i].digest)
  }

  // What every operation keeps.

  predicate AtMostOneStarted(l: Ledger) {
    forall i, j | 0 <= i < j < |l| :: !(l[i].state.Started? && l[j].state.Started?)
  }

  predicate DistinctDigests(l: Ledger) {
    forall i, j | 0 <= i < j < |l| :: l[i].digest != l[j].digest
  }

  predicate Inv(l: Ledger) {
    && (forall i | 0 <= i < |l| :: ValidRow(l[i]))
    && DistinctDigests(l) && AtMostOneStarted(l) && Within(Charged(l), LIMIT)
  }

  lemma ChargedAppend(l: Ledger, r: Row)
    ensures Charged(l + [r]) == Plus(Charged(l), Charge(r))
  {
  }

  lemma {:induction false} ChargedReplace(l: Ledger, i: nat, r: Row)
    requires i < |l| && Within(Charge(r), Charge(l[i]))
    ensures Within(Charged(l[i := r]), Charged(l))
  {
    var n := |l| - 1;
    if i == n {
      assert l[i := r][..n] == l[..n];
    } else {
      assert l[i := r][..n] == l[..n][i := r];
      ChargedReplace(l[..n], i, r);
    }
  }

  lemma CloseKeeps(l: Ledger, i: nat, state: State, consumed: Budget, now: nat)
    requires Inv(l) && i < |l| && l[i].state.Started? && !state.Started? && Within(consumed, l[i].reserved)
    ensures var c := Close(l, i, state, consumed, now); c.Some? ==> Inv(c.value) && Digests(c.value) == Digests(l)
  {
    var r := l[i].(state := state, consumed := consumed, finishedAt := Some(now));
    ChargedReplace(l, i, r);
  }

  /** In a kept ledger the overspend check never fires. */
  lemma NeverOverspent(l: Ledger)
    requires Inv(l)
    ensures UsedBudget(l) == Ok(Charged(l))
  {
  }

  lemma ClaimKeeps(l: Ledger, digest: string, mode: Mode, requested: Budget, now: nat)
    requires Inv(l)
    ensures var (after, answer) := AfterClaim(l, digest, mode, requested, now);
            && Inv(after)
            && Digests(after) == Digests(l) + (if answer.Execute? then [digest] else [])
  {
    hide Inv, Resolve, ValidRow, HasStarted, HasBrokenStarted, UsedBudget, Find, Granted, Charged;
    NeverOverspent(l);
    var (after, answer) := AfterClaim(l, digest, mode, requested, now);
    assert Digests(l) + [] == Digests(l);
    if answer.Execute? {
      GrantKeeps(l, digest, requested, now);
    }
  }

  lemma GrantFits(requested: Budget, used: Budget, digest: string, now: nat)
    requires Within(used, LIMIT) && Within(requested, LIMIT)
    ensures Within(Plus(used, Granted(requested, used)), LIMIT)
    ensures ValidRow(Row(digest, Granted(requested, used), NOTHING, Started, now, None))
  {
  }

  lemma NewRowFits(l: Ledger, r: Row)
    requires (forall i | 0 <= i < |l| :: ValidRow(l[i])) && ValidRow(r)
    requires DistinctDigests(l) && AtMostOneStarted(l) && Find(l, r.digest) < 0 && !HasStarted(l)
    ensures (forall i | 0 <= i < |l + [r]| :: ValidRow((l + [r])[i]))
    ensures DistinctDigests(l + [r]) && AtMostOneStarted(l + [r]) && Digests(l + [r]) == Digests(l) + [r.digest]
  {
  }

  lemma GrantKeeps(l: Ledger, digest: string, requested: Budget, now: nat)
    requires Inv(l) && Within(requested, LIMIT) && Find(l, digest) < 0 && !HasStarted(l)
    ensures var r := Row(digest, Granted(requested, Charged(l)), NOTHING, Started, now, None);
            Inv(l + [r]) && Digests(l + [r]) == Digests(l) + [digest]
  {
    var r := Row(digest, Granted(requested, Charged(l)), NOTHING, Started, now, None);
    hide Charged, HasStarted, Find, DistinctDigests, AtMostOneStarted, ValidRow;
    ChargedAppend(l, r);
    GrantFits(requested, Charged(l), digest, now);
    hide Granted, Within;
    NewRowFits(l, r);
  }

  /** One operation keeps the ledger and adds a row exactly when it says to execute. */
  lemma ApplyKeeps(l: Ledger, op: Operation)
    requires Inv(l)
    ensures var (after, answer) := Apply(l, op);
            && Inv(after)
            && Digests(after) == Digests(l) + (if op.Claim? && answer.Execute? then [op.digest] else [])
  {
    match op
    case Claim(d, m, q, now) => ClaimKeeps(l, d, m, q, now);
    case Complete(d, m, s, now) =>
      var i := Open(l, d);
      if s.mode == m && i >= 0 && Within(Budget(s.queries, s.selected), l[i].reserved) {
        CloseKeeps(l, i, Completed(s), Budget(s.queries, s.selected), now);
      }
      assert Digests(l) + [] == Digests(l);
    case Fail(d, f, now) =>
      var i := Open(l, d);
      if i >= 0 {
        CloseKeeps(l, i, Failed(f), l[i].reserved, now);
      }
      assert Digests(l) + [] == Digests(l);
  }

  /** Over every sequence of claims, completions and failures: the charges stay within the run's limits, at most one
      attempt is open, and each digest is told to execute at most once. */
  lemma {:induction false} RunKeeps(ops: seq<Operation>)
    ensures Inv(Run(ops).ledger) && Executions(Run(ops).events) == Digests(Run(ops).ledger)
    ensures forall i, j | 0 <= i < j < |Executions(Run(ops).events)| :: Executions(Run(ops).events)[i] != Executions(Run(ops).events)[j]
  {
    if ops != [] {
      var n := |ops| - 1;
      RunKeeps(ops[..n]);
      hide Inv;
      ApplyKeeps(Run(ops[..n]).ledger, ops[n]);
      var events := Run(ops).events;
      assert events[..|events| - 1] == Run(ops[..n]).events;
    }
    assert Inv(Run(ops).ledger) ==> DistinctDigests(Run(ops).ledger);
  }

  // What was granted, spent and answered stays so.

  /** Later rows may be added; a finished row keeps its place and every value. */
  ghost predicate FinishedStay(l: Ledger, u: Ledger) {
    |l| <= |u| && forall i | 0 <= i < |l| :: u[i].digest == l[i].digest && (!l[i].state.Started? ==> u[i] == l[i])
  }

  lemma ApplyKeepsFinished(l: Ledger, op: Operation)
    ensures FinishedStay(l, Apply(l, op).0)
  {
    hide UsedBudget, Granted, Resolve, HasStarted, HasBrokenStarted, ValidRow, Within;
  }

  /** A ledger after more operations. */
  function Continue(l: Ledger, ops: seq<Operation>): Ledger {
    if ops == [] then l else Apply(Continue(l, ops[..|ops| - 1]), ops[|ops| - 1]).0
  }

  lemma {:induction false} ContinueKeeps(l: Ledger, ops: seq<Operation>)
    requires Inv(l)
    ensures Inv(Continue(l, ops)) && FinishedStay(l, Continue(l, ops))
  {
    if ops != [] {
      hide Inv, Apply;
      var n := |ops| - 1;
      ContinueKeeps(l, ops[..n]);
      ApplyKeeps(Continue(l, ops[..n]), ops[n]);
      ApplyKeepsFinished(Continue(l, ops[..n]), ops[n]);
    }
  }

  lemma FindIs(l: Ledger, i: nat)
    requires DistinctDigests(l) && i < |l|
    ensures Find(l, l[i].digest) == i
  {
    var k := Find(l, l[i].digest);
    assert k >= 0;
    assert !(k < i) && !(i < k);
  }

  /** After a completion, whatever else happens to the run, claiming the digest again in the same mode replays the
      summary, executes nothing and changes nothing. */
  lemma CompletedIsReplayed(l: Ledger, digest: string, mode: Mode, summary: Summary, now: nat, ops: seq<Operation>,
                            requested: Budget, later: nat)
    requires Inv(l) && AfterComplete(l, digest, mode, summary, now).1.Done? && Within(requested, LIMIT)
    ensures var u := Continue(AfterComplete(l, digest, mode, summary, now).0, ops);
            AfterClaim(u, digest, mode, requested, later) == (u, Replay(summary))
  {
    var i := Open(l, digest);
    var (v, answer) := AfterComplete(l, digest, mode, summary, now);
    ApplyKeeps(l, Complete(digest, mode, summary, now));
    assert v[i].digest == digest && v[i].state == Completed(summary) && summary.mode == mode;
    hide AfterComplete, Open, Within, Charged;
    ContinueKeeps(v, ops);
    var u := Continue(v, ops);
    hide Continue;
    assert u[i] == v[i];
    FindIs(u, i);
  }

  /** A failed attempt keeps its whole reservation charged and is never executed again. */
  lemma FailureIsFinal(l: Ledger, digest: string, failure: Failure, now: nat, ops: seq<Operation>, mode: Mode,
                       requested: Budget, later: nat)
    requires Inv(l) && AfterFail(l, digest, failure, now).1.StoredFailure? && Within(requested, LIMIT)
    ensures var v := AfterFail(l, digest, failure, now).0;
            var u := Continue(v, ops);
            && Charged(v) == Charged(l)
            && AfterClaim(u, digest, mode, requested, later)
               == (u, if failure.Cancelled? then Replay(Summary(mode, 0, 0, CANCELLED_TEXT)) else StoredFailure(failure.code))
  {
    var i := Open(l, digest);
    var (v, answer) := AfterFail(l, digest, failure, now);
    ApplyKeeps(l, Fail(digest, failure, now));
    ChargedSame(l, i, v[i]);
    assert v[i].digest == digest && v[i].state == Failed(failure);
    hide AfterFail, Open, Within, Charged;
    ContinueKeeps(v, ops);
    var u := Continue(v, ops);
    hide Continue;
    assert u[i] == v[i];
    FindIs(u, i);
  }

  lemma {:induction false} ChargedSame(l: Ledger, i: nat, r: Row)
    requires i < |l| && Charge(r) == Charge(l[i])
    ensures Charged(l[i := r]) == Charged(l)
  {
    var n := |l| - 1;
    if i == n {
      assert l[i := r][..n] == l[..n];
    } else {
      assert l[i := r][..n] == l[..n][i := r];
      ChargedSame(l[..n], i, r);
    }
  }
}
