/** What each mutation needs and does, and where stored results come from over every history of a task. */
module VerificationHistory {
  import opened Wrappers
  import opened VerificationTables

  // One mutation.

  /** Evidence `id` describes this run at this root and state, for this target. */
  ghost predicate Describes(t: Task, id: string, root: string, state: Digest, target: string) {
    && id in t.evidence && t.evidence[id].ofThisRun
    && t.evidence[id].root == root && t.evidence[id].state == state
    && t.evidence[id].target == Some(target) && target != ""
  }

  /** The mutation can take effect. */
  ghost predicate Applies(t: Task, w: World, root: string, m: Mutation) {
    match m
    case Define(_, _) => w.clean
    case RecordResult(version, check, target, source) =>
      && version == |t.contracts| >= 1
      && check in t.contracts[version - 1] && t.contracts[version - 1][check].check.target == target
      && (match source
          case Local(id) => Describes(t, id, root, w.digest, target)
          case Ci(commit, _) => w.head == Some(commit))
    case RecordEvidence(id, row) => id !in t.evidence && row.state == w.digest
    case OtherMutation(_) => true
  }

  /** A request that was not seen before may go ahead: the run is active, the repository is the bound one, and nothing has
      changed since the revision that the caller read. */
  ghost predicate Proceeds(t: Task, input: Input, w: World) {
    && input.request !in t.receipts && w.active && w.root.Some? && (t.root.Some? ==> t.root == w.root)
    && t.revision == input.expectedRevision
  }

  lemma EffectApplies(t: Task, w: World, root: string, m: Mutation, revision: nat)
    ensures Effect(t, w, root, m, revision).Ok? <==> Applies(t, w, root, m)
  {
    hide DefineRows;
  }

  /** A mutation succeeds exactly when it is valid and either repeats a stored request or proceeds and applies. */
  lemma SucceedsExactly(t: Task, input: Input, w: World)
    ensures Mutate(t, input, w).Ok? <==>
              && ValidInput(input.mutation)
              && ((input.request in t.receipts && t.receipts[input.request].input == input)
                  || (Proceeds(t, input, w) && Applies(t, w, w.root.value, input.mutation)))
  {
    hide Effect;
    if w.root.Some? {
      EffectApplies(t.(root := w.root), w, w.root.value, input.mutation,
                    t.revision + if Advances(input.mutation) then 1 else 0);
    }
  }

  /** The contract holds exactly the given checks, as they were given. */
  ghost predicate Holds(contract: Contract, checks: seq<Check>) {
    && contract.Keys == (set i | 0 <= i < |checks| :: checks[i].id)
    && forall i | 0 <= i < |checks| :: contract[checks[i].id].check == checks[i]
  }

  lemma OneMoreHolds(rows: Contract, checks: seq<Check>, row: CheckRow)
    requires checks != [] && UniqueIds(checks) && Holds(rows, checks[..|checks| - 1]) && row.check == checks[|checks| - 1]
    ensures Holds(rows[checks[|checks| - 1].id := row], checks)
  {
    var front, last := checks[..|checks| - 1], checks[|checks| - 1];
    assert forall i | 0 <= i < |front| :: checks[i] == front[i] && checks[i].id != last.id;
    assert (set i | 0 <= i < |checks| :: checks[i].id) == (set i | 0 <= i < |front| :: front[i].id) + {last.id};
  }

  lemma {:induction false} DefinedHolds(checks: seq<Check>, prior: Option<Contract>, version: nat)
    requires UniqueIds(checks)
    ensures Holds(DefineRows(checks, prior, version), checks)
    decreases |checks|
  {
    if checks != [] {
      hide Holds, NextHash;
      var n := |checks| - 1;
      DefinedHolds(checks[..n], prior, version);
      OneMoreHolds(DefineRows(checks[..n], prior, version), checks, CheckRow(checks[n], NextHash(prior, checks[n], version)));
    }
  }

  /** How a result must read: passed needs evidence that passed with exit code 0, or a successful conclusion; evidence that
      claims to have passed without that exit code is unknown; a conclusion is skipped or unknown as reported, and
      everything else has failed. */
  ghost predicate Judged(t: Task, source: Source, outcome: Outcome) {
    match source
    case Local(id) =>
      id in t.evidence
      && (if t.evidence[id].outcome != Passed then outcome == t.evidence[id].outcome
          else if t.evidence[id].exit == Some(0) then outcome == Passed
          else outcome == Unknown)
    case Ci(_, conclusion) =>
      && (outcome == Passed <==> conclusion == Success)
      && (outcome == Failed <==> conclusion == Failure || conclusion == CiCancelled || conclusion == TimedOut)
      && (outcome == Skipped <==> conclusion == CiSkipped)
  }

  /** What each kind of mutation leaves in the rows. */
  ghost predicate Wrote(t: Task, u: Task, w: World, root: string, m: Mutation) {
    match m
    case Define(_, checks) =>
      && |u.contracts| == |t.contracts| + 1 && u.contracts[..|t.contracts|] == t.contracts
      && Holds(u.contracts[|t.contracts|], checks) && u.results == t.results && u.evidence == t.evidence
    case RecordResult(version, check, target, source) =>
      && u.contracts == t.contracts && u.evidence == t.evidence
      && |u.results| == |t.results| + 1 && u.results[..|t.results|] == t.results
      && (var row := u.results[|t.results|];
          && row.version == version && row.check == check && row.target == target && row.source == source
          && row.state == w.digest && version == |t.contracts| >= 1 && check in t.contracts[version - 1]
          && row.hash == t.contracts[version - 1][check].hash && Judged(t, source, row.outcome)
          && (row.provenance.ClientObserved? <==>
                source.Local? && source.evidence in t.evidence && t.evidence[source.evidence].provenance.ClientObserved?))
    case RecordEvidence(id, row) =>
      && u.contracts == t.contracts && u.results == t.results
      && u.evidence == t.evidence[id := row.(ofThisRun := true, root := root)]
    case OtherMutation(_) => u.contracts == t.contracts && u.results == t.results && u.evidence == t.evidence
  }

  /** What the caller is told: the version and number of checks just defined, or the result just recorded. */
  ghost predicate Told(u: Task, m: Mutation, response: Response) {
    && (m.Define? ==> response.Defined? && response.version == |u.contracts| && response.count == |m.checks|)
    && (m.RecordResult? ==>
          && response.Recorded? && u.results != []
          && response.outcome == u.results[|u.results| - 1].outcome && response.provenance == u.results[|u.results| - 1].provenance)
    && (m.RecordEvidence? || m.OtherMutation? ==> response.Other?)
  }

  lemma EffectWrote(t: Task, w: World, root: string, m: Mutation, revision: nat)
    requires ValidInput(m) && Effect(t, w, root, m, revision).Ok?
    ensures var u := Effect(t, w, root, m, revision).value.0;
            && Wrote(t, u, w, root, m) && Told(u, m, Effect(t, w, root, m, revision).value.1)
            && u.revision == t.revision && u.root == t.root && u.changed == t.changed && u.receipts == t.receipts
  {
    hide DefineRows, UniqueIds, Holds;
    if m.Define? {
      DefinedHolds(m.checks, Newest(t), |t.contracts| + 1);
    }
  }

  /** A request that succeeds for the first time writes its rows, binds the repository, keeps its receipt, and advances the
      revision by one unless it only adds evidence or reviews without advancing. */
  lemma FirstTimeWrites(t: Task, input: Input, w: World)
    requires Mutate(t, input, w).Ok? && input.request !in t.receipts
    ensures var (u, response) := Mutate(t, input, w).value;
            && w.root.Some? && Wrote(t, u, w, w.root.value, input.mutation) && Told(u, input.mutation, response)
            && u.root == w.root && u.changed == t.changed && u.receipts == t.receipts[input.request := Receipt(input, response)]
            && u.revision == response.revision
            && u.revision == (if input.mutation.Define? || input.mutation.RecordResult?
                                 || (input.mutation.OtherMutation? && input.mutation.advance)
                              then t.revision + 1 else t.revision)
  {
    var t' := t.(root := w.root);
    var revision := t.revision + if Advances(input.mutation) then 1 else 0;
    EffectWrote(t', w, w.root.value, input.mutation, revision);
    ResponseRevision(t', w, w.root.value, input.mutation, revision);
    hide Effect;
    var u := Effect(t', w, w.root.value, input.mutation, revision).value.0;
    SameRowsWrote(t', t, u, Mutate(t, input, w).value.0, w, w.root.value, input.mutation);
  }

  lemma ResponseRevision(t: Task, w: World, root: string, m: Mutation, revision: nat)
    requires Effect(t, w, root, m, revision).Ok?
    ensures Effect(t, w, root, m, revision).value.1.revision == revision
  {
    hide DefineRows;
  }

  lemma SameRowsWrote(t: Task, t': Task, u: Task, u': Task, w: World, root: string, m: Mutation)
    requires Wrote(t, u, w, root, m)
    requires t'.contracts == t.contracts && t'.results == t.results && t'.evidence == t.evidence
    requires u'.contracts == u.contracts && u'.results == u.results && u'.evidence == u.evidence
    ensures Wrote(t', u', w, root, m)
  {
    hide Holds;
  }

  // Histories.

  lemma {:induction false} RunSnoc(t: Task, calls: seq<Call>, c: Call)
    ensures Run(t, calls + [c]) == Next(Run(t, calls), c)
    decreases |calls|
  {
    hide Next;
    if calls == [] {
      assert Run(t, [c]) == Run(Next(t, c), []);
    } else {
      assert (calls + [c])[1..] == calls[1..] + [c];
      RunSnoc(Next(t, calls[0]), calls[1..], c);
    }
  }

  /** The task before step `k` of a history. */
  function Before(calls: seq<Call>, k: nat): Task
    requires k <= |calls|
  {
    Run(NewTask, calls[..k])
  }

  lemma BeforeNext(calls: seq<Call>, k: nat)
    requires k < |calls|
    ensures Before(calls, k + 1) == Next(Before(calls, k), calls[k])
  {
    hide Next, Run;
    assert calls[..k + 1] == calls[..k] + [calls[k]];
    RunSnoc(NewTask, calls[..k], calls[k]);
  }

  /** Step `j` recorded result `i`: a request that proceeded and applied, in a world with the state that the row carries, for a
      check and target of the newest contract of that moment, with the outcome that its source shows. */
  ghost predicate RecordedAt(calls: seq<Call>, j: nat, i: nat, row: ResultRow) {
    && j < |calls| && calls[j].Call?
    && calls[j].input.mutation == RecordResult(row.version, row.check, row.target, row.source)
    && (var t, w := Before(calls, j), calls[j].world;
        && Proceeds(t, calls[j].input, w) && Applies(t, w, w.root.value, calls[j].input.mutation)
        && row.state == w.digest && Judged(t, row.source, row.outcome)
        && |t.results| == i && Before(calls, j + 1).results == t.results + [row])
  }

  /** Every result of every history was recorded by one such step. */
  lemma {:induction false} ResultIsRecorded(calls: seq<Call>, n: nat, i: nat)
    requires n <= |calls| && i < |Before(calls, n).results|
    ensures exists j | 0 <= j < n :: RecordedAt(calls, j, i, Before(calls, n).results[i])
    decreases n
  {
    if n > 0 {
      hide Before, Proceeds, Applies, Judged;
      var t, c := Before(calls, n - 1), calls[n - 1];
      BeforeNext(calls, n - 1);
      if i < |t.results| {
        ResultIsRecorded(calls, n - 1, i);
        var j :| 0 <= j < n - 1 && RecordedAt(calls, j, i, t.results[i]);
        ResultsOnlyGrow(t, c);
        assert RecordedAt(calls, j, i, Before(calls, n).results[i]);
      } else {
        NewResult(t, c, i);
        assert RecordedAt(calls, n - 1, i, Before(calls, n).results[i]);
      }
    }
  }

  lemma ResultsOnlyGrow(t: Task, c: Call)
    ensures var u := Next(t, c); |t.results| <= |u.results| && u.results[..|t.results|] == t.results
  {
    hide Mutate;
    if c.Call? && Mutate(t, c.input, c.world).Ok? {
      if c.input.request in t.receipts {
        ReplayKeeps(t, c.input, c.world);
      } else {
        FirstTimeWrites(t, c.input, c.world);
      }
    }
    assert t.results[..|t.results|] == t.results;
  }

  lemma ReplayKeeps(t: Task, input: Input, w: World)
    requires input.request in t.receipts
    ensures After(t, input, w) == t
  {
  }

  lemma NewResult(t: Task, c: Call, i: nat)
    requires |t.results| <= i < |Next(t, c).results|
    ensures c.Call? && i == |t.results| && Next(t, c).results == t.results + [Next(t, c).results[i]]
    ensures var row := Next(t, c).results[i];
            && c.input.mutation == RecordResult(row.version, row.check, row.target, row.source)
            && Proceeds(t, c.input, c.world) && Applies(t, c.world, c.world.root.value, c.input.mutation)
            && row.state == c.world.digest && Judged(t, row.source, row.outcome)
  {
    hide Mutate;
    assert c.Call?;
    if c.input.request in t.receipts {
      ReplayKeeps(t, c.input, c.world);
    }
    SucceedsExactly(t, c.input, c.world);
    FirstTimeWrites(t, c.input, c.world);
    var u := Next(t, c);
    assert u.results == u.results[..|t.results|] + u.results[|t.results|..];
  }

  /** A passed result was earned: its step saw evidence that passed with exit code 0, of this run, root, state and target, stored
      before; or a successful conclusion at the clean head commit. */
  ghost predicate EarnedAt(calls: seq<Call>, j: nat, row: ResultRow) {
    && j < |calls| && calls[j].Call? && calls[j].world.root.Some? && row.state == calls[j].world.digest
    && match row.source
       case Local(id) =>
         var t := Before(calls, j);
         && Describes(t, id, calls[j].world.root.value, row.state, row.target)
         && t.evidence[id].outcome == Passed && t.evidence[id].exit == Some(0)
       case Ci(commit, conclusion) => conclusion == Success && calls[j].world.head == Some(commit)
  }

  ghost predicate Earned(calls: seq<Call>, i: nat, row: ResultRow) {
    exists j: nat :: RecordedAt(calls, j, i, row) && EarnedAt(calls, j, row)
  }

  lemma PassedIsEarned(calls: seq<Call>, i: nat)
    requires i < |Run(NewTask, calls).results| && Run(NewTask, calls).results[i].outcome == Passed
    ensures Earned(calls, i, Run(NewTask, calls).results[i])
  {
    hide Run;
    assert calls[..|calls|] == calls;
    var row := Run(NewTask, calls).results[i];
    ResultIsRecorded(calls, |calls|, i);
    var j :| 0 <= j < |calls| && RecordedAt(calls, j, i, row);
    assert EarnedAt(calls, j, row);
  }
}
