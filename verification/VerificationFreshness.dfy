/** No resurrection: a check is reported passed exactly when its newest result passed at the current
    state, under a version since which the check has been present and unchanged. */
module VerificationFreshness {
  import opened Wrappers
  import opened VerificationTables
  import opened VerificationHistory

  ghost predicate SameCheck(contracts: seq<Contract>, id: CheckId, v: int, w: int) {
    && RowAt(contracts, v, id).Some? && RowAt(contracts, w, id).Some?
    && RowAt(contracts, v, id).value.check == RowAt(contracts, w, id).value.check
  }

  /** The check is in every version of the range, with one definition. */
  ghost predicate UnchangedBetween(contracts: seq<Contract>, id: CheckId, first: int, last: int) {
    first <= last && forall v | first <= v <= last :: SameCheck(contracts, id, v, last)
  }

  /** A version's hash follows from the previous version. */
  ghost predicate HashFollows(contracts: seq<Contract>, v: int, id: CheckId) {
    var row := RowAt(contracts, v, id);
    row.Some? ==>
      && row.value.check.id == id
      && row.value.hash == if SameCheck(contracts, id, v - 1, v) then RowAt(contracts, v - 1, id).value.hash
                           else DefinitionHash(row.value.check, v)
  }

  ghost predicate HashesFollow(contracts: seq<Contract>) {
    forall v, id :: HashFollows(contracts, v, id)
  }

  ghost predicate ResultFits(contracts: seq<Contract>, r: ResultRow) {
    && RowAt(contracts, r.version, r.check).Some?
    && r.hash == RowAt(contracts, r.version, r.check).value.hash
  }

  ghost predicate ResultsFit(t: Task) {
    forall k | 0 <= k < |t.results| :: ResultFits(t.contracts, t.results[k])
  }

  ghost predicate Inv(t: Task) {
    && HashesFollow(t.contracts)
    && (forall k | 0 <= k < |t.contracts| :: t.contracts[k] != map[])
    && ResultsFit(t)
  }

  lemma {:induction false} DefinedRows(checks: seq<Check>, prior: Option<Contract>, version: nat)
    ensures var rows := DefineRows(checks, prior, version);
            && (forall id | id in rows ::
                  rows[id].check.id == id && rows[id].hash == NextHash(prior, rows[id].check, version))
            && (forall i | 0 <= i < |checks| :: checks[i].id in rows)
            && (UniqueIds(checks) ==> forall i | 0 <= i < |checks| :: rows[checks[i].id].check == checks[i])
    decreases |checks|
  {
    if checks != [] {
      var front := checks[..|checks| - 1];
      DefinedRows(front, prior, version);
      assert forall i | 0 <= i < |front| :: checks[i] == front[i];
    }
  }

  lemma ExtendedContracts(contracts: seq<Contract>, newest: Contract)
    ensures forall v, id | v <= |contracts| :: RowAt(contracts + [newest], v, id) == RowAt(contracts, v, id)
    ensures forall id :: RowAt(contracts + [newest], |contracts| + 1, id)
                         == if id in newest then Some(newest[id]) else None
  {
  }

  lemma DefinedHashesFollow(t: Task, checks: seq<Check>, v: int, id: CheckId)
    requires HashesFollow(t.contracts)
    ensures HashFollows(t.contracts + [DefineRows(checks, Newest(t), |t.contracts| + 1)], v, id)
  {
    var n := |t.contracts|;
    var rows := DefineRows(checks, Newest(t), n + 1);
    DefinedRows(checks, Newest(t), n + 1);
    ExtendedContracts(t.contracts, rows);
    assert HashFollows(t.contracts, v, id);
    if v == n + 1 && id in rows {
      assert RowAt(t.contracts + [rows], v - 1, id) == RowAt(t.contracts, n, id);
    }
  }

  lemma DefinedResultsFit(t: Task, rows: Contract)
    requires ResultsFit(t)
    ensures ResultsFit(t.(contracts := t.contracts + [rows]))
  {
  }

  lemma DefineKeeps(t: Task, checks: seq<Check>)
    requires Inv(t) && 1 <= |checks|
    ensures Inv(t.(contracts := t.contracts + [DefineRows(checks, Newest(t), |t.contracts| + 1)]))
  {
    var rows := DefineRows(checks, Newest(t), |t.contracts| + 1);
    DefinedResultsFit(t, rows);
    hide ResultsFit;
    forall v, id
      ensures HashFollows(t.contracts + [rows], v, id)
    {
      DefinedHashesFollow(t, checks, v, id);
    }
    hide HashFollows;
    DefinedRows(checks, Newest(t), |t.contracts| + 1);
    assert checks[0].id in rows;
  }

  lemma RecordKeeps(t: Task, w: World, root: string, version: nat, check: CheckId, target: string, source: Source)
    requires Inv(t)
    ensures var r := RecordEffect(t, w, root, version, check, target, source);
            r.Ok? ==> Inv(t.(results := t.results + [r.value]))
  {
  }

  lemma EffectKeeps(t: Task, w: World, root: string, m: Mutation, revision: nat)
    requires Inv(t) && ValidInput(m)
    ensures var r := Effect(t, w, root, m, revision); r.Ok? ==> Inv(r.value.0)
  {
    match m
    case Define(_, checks) => DefineKeeps(t, checks);
    case RecordResult(version, check, target, source) => RecordKeeps(t, w, root, version, check, target, source);
    case _ =>
  }

  lemma MutateKeeps(t: Task, input: Input, w: World)
    requires Inv(t)
    ensures Inv(After(t, input, w))
  {
    if ValidInput(input.mutation) {
      EffectKeeps(t.(root := w.root), w, if w.root.Some? then w.root.value else "", input.mutation,
                  t.revision + if Advances(input.mutation) then 1 else 0);
    }
  }

  lemma NextKeeps(t: Task, c: Call)
    requires Inv(t)
    ensures Inv(Next(t, c))
  {
    if c.Call? {
      MutateKeeps(t, c.input, c.world);
    }
  }

  lemma {:induction false} RunKeeps(t: Task, calls: seq<Call>)
    requires Inv(t)
    ensures Inv(Run(t, calls))
    decreases |calls|
  {
    if calls != [] {
      NextKeeps(t, calls[0]);
      RunKeeps(Next(t, calls[0]), calls[1..]);
    }
  }

  /** A hash names the version that introduced the check, and the check has not changed since. */
  lemma {:induction false} HashOrigin(contracts: seq<Contract>, id: CheckId, v: nat)
    requires HashesFollow(contracts) && RowAt(contracts, v, id).Some?
    ensures var origin := RowAt(contracts, v, id).value.hash.version;
            1 <= origin <= v && UnchangedBetween(contracts, id, origin, v)
    decreases v
  {
    assert HashFollows(contracts, v, id);
    if SameCheck(contracts, id, v - 1, v) {
      HashOrigin(contracts, id, v - 1);
      var origin := RowAt(contracts, v, id).value.hash.version;
      forall u | origin <= u <= v
        ensures SameCheck(contracts, id, u, v)
      {
        assert u < v ==> SameCheck(contracts, id, u, v - 1);
      }
    }
  }

  /** An unchanged check keeps its hash. */
  lemma {:induction false} UnchangedKeepsHash(contracts: seq<Contract>, id: CheckId, first: nat, last: nat)
    requires HashesFollow(contracts) && UnchangedBetween(contracts, id, first, last)
    ensures RowAt(contracts, first, id).Some? && RowAt(contracts, last, id).Some?
    ensures RowAt(contracts, first, id).value.hash == RowAt(contracts, last, id).value.hash
    decreases last
  {
    assert SameCheck(contracts, id, first, last);
    if last > first {
      assert SameCheck(contracts, id, last - 1, last);
      assert HashFollows(contracts, last, id);
      var prior := last - 1;
      forall u | first <= u <= prior
        ensures SameCheck(contracts, id, u, prior)
      {
        assert SameCheck(contracts, id, u, last);
      }
      UnchangedKeepsHash(contracts, id, first, prior);
    }
  }

  /** Between two versions the hash is the same exactly when the check stayed, unchanged, in each of
      them: neither A to B to A nor dropping and re-adding a check brings an old hash back. */
  lemma SameHashIffUnchanged(contracts: seq<Contract>, id: CheckId, first: nat, last: nat)
    requires HashesFollow(contracts) && first <= last
    requires RowAt(contracts, first, id).Some? && RowAt(contracts, last, id).Some?
    ensures RowAt(contracts, first, id).value.hash == RowAt(contracts, last, id).value.hash
            <==> UnchangedBetween(contracts, id, first, last)
  {
    HashOrigin(contracts, id, first);
    HashOrigin(contracts, id, last);
    if UnchangedBetween(contracts, id, first, last) {
      UnchangedKeepsHash(contracts, id, first, last);
    }
  }

  /** The newest result of the check passed at the present state, and nothing about the check has
      changed in any version since it was recorded. */
  ghost predicate FreshlyPassed(t: Task, w: World, id: CheckId) {
    exists k: nat :: PassedAt(t, w, id, k)
  }

  ghost predicate PassedAt(t: Task, w: World, id: CheckId, k: nat) {
    FreshAt(t, w, id, k) && t.results[k].outcome.Passed?
  }

  /** Result `k` is the newest of the check, at the present state, and the check is unchanged since. */
  ghost predicate FreshAt(t: Task, w: World, id: CheckId, k: nat) {
    && k < |t.results| && t.results[k].check == id
    && (forall j | k < j < |t.results| :: t.results[j].check != id)
    && t.results[k].state == w.digest
    && (t.results[k].source.Ci? ==> w.head == Some(t.results[k].source.commit))
    && UnchangedBetween(t.contracts, id, t.results[k].version, |t.contracts|)
  }

  /** A check is reported with the outcome of its fresh newest result, and pending without one. */
  lemma ReportedIffFresh(t: Task, w: World, id: CheckId)
    requires Inv(t) && t.root.Some? && t.contracts != [] && id in Newest(t).value
    ensures var status := StatusOf(t, w, Newest(t).value[id]);
            && (forall k: nat | FreshAt(t, w, id, k) :: status == Status(t.results[k].outcome))
            && (status != Pending ==> exists k: nat :: FreshAt(t, w, id, k))
  {
    var n := |t.contracts|;
    var row := Newest(t).value[id];
    assert RowAt(t.contracts, n, id) == Some(row) && HashFollows(t.contracts, n, id);
    var k := LatestResult(t.results, id);
    if k.Some? {
      var r := t.results[k.value];
      assert ResultFits(t.contracts, r);
      SameHashIffUnchanged(t.contracts, id, r.version, n);
      hide Inv, HashesFollow, ResultsFit;
      if StatusOf(t, w, row) != Pending {
        assert FreshAt(t, w, id, k.value);
      }
      assert forall j: nat | FreshAt(t, w, id, j) :: j == k.value;
    }
  }

  lemma PassedIffFresh(t: Task, w: World, id: CheckId)
    requires Inv(t) && t.root.Some? && t.contracts != [] && id in Newest(t).value
    ensures StatusOf(t, w, Newest(t).value[id]) == Status(Passed) <==> FreshlyPassed(t, w, id)
  {
    hide Inv, StatusOf, UnchangedBetween;
    ReportedIffFresh(t, w, id);
    if StatusOf(t, w, Newest(t).value[id]) == Status(Passed) {
      var k: nat :| FreshAt(t, w, id, k);
      assert PassedAt(t, w, id, k);
    }
  }

  /** The check is freshly passed, and its newest result was earned in this history: the step that recorded it saw evidence of
      this run, root, state and target that passed with exit code 0, or a successful conclusion at the clean head commit. */
  ghost predicate FreshlyEarned(calls: seq<Call>, w: World, id: CheckId) {
    exists k: nat :: EarnedPassAt(calls, w, id, k)
  }

  ghost predicate EarnedPassAt(calls: seq<Call>, w: World, id: CheckId, k: nat) {
    var t := Run(NewTask, calls);
    PassedAt(t, w, id, k) && Earned(calls, k, t.results[k])
  }

  lemma FreshIsEarned(calls: seq<Call>, w: World, id: CheckId)
    ensures FreshlyPassed(Run(NewTask, calls), w, id) <==> FreshlyEarned(calls, w, id)
  {
    hide Run, Earned, UnchangedBetween;
    if FreshlyPassed(Run(NewTask, calls), w, id) {
      var k: nat :| PassedAt(Run(NewTask, calls), w, id, k);
      PassedIsEarned(calls, k);
      assert EarnedPassAt(calls, w, id, k);
    }
    if FreshlyEarned(calls, w, id) {
      var k: nat :| EarnedPassAt(calls, w, id, k);
      assert PassedAt(Run(NewTask, calls), w, id, k);
    }
  }

  /** Over every sequence of definitions, records, other mutations, retries and observations: when verification is
      required it is reported ready exactly when a contract exists, its repository is known, and every
      check of its newest version is freshly passed by a result that was earned. */
  lemma NoResurrection(calls: seq<Call>, w: World, building: bool)
    ensures var t := Run(NewTask, calls);
            var report := ReportOn(t, w, building);
            report.mode.Required? ==>
              (report.ready <==>
                 t.contracts != [] && t.root.Some? && forall id | id in Newest(t).value :: FreshlyEarned(calls, w, id))
  {
    hide Inv, FreshlyPassed, FreshlyEarned, StatusOf, Run;
    var t := Run(NewTask, calls);
    RunKeeps(NewTask, calls);
    if t.contracts != [] {
      var newest, report := Newest(t).value, ReportOn(t, w, building);
      NewestIsNotEmpty(t);
      if t.root.Some? {
        forall id | id in newest
          ensures report.checks[id] == Status(Passed) <==> FreshlyEarned(calls, w, id)
        {
          PassedIffFresh(t, w, id);
          FreshIsEarned(calls, w, id);
        }
      } else {
        RootlessIsPending(t, w);
      }
    }
  }

  lemma NewestIsNotEmpty(t: Task)
    requires Inv(t) && t.contracts != []
    ensures Newest(t).value != map[]
  {
  }

  lemma RootlessIsPending(t: Task, w: World)
    requires t.root.None?
    ensures forall row :: StatusOf(t, w, row) == Pending
  {
  }

  /** Over every history a task can be closed as completed exactly when nothing asks for verification, or every check of the
      newest contract is freshly passed by an earned result; a task under construction can never be completed without a
      contract. */
  lemma CompletionNeedsFreshPasses(calls: seq<Call>, w: World, building: bool)
    ensures var t := Run(NewTask, calls);
            MayClose(t, w, building, ClosesCompleted) <==>
              || (!building && !t.changed && t.contracts == [])
              || (t.contracts != [] && t.root.Some? && forall id | id in Newest(t).value :: FreshlyEarned(calls, w, id))
  {
    NoResurrection(calls, w, building);
    hide FreshlyEarned, Run;
  }

  // Receipts and revisions.

  ghost predicate ReceiptsKept(t: Task, u: Task) {
    forall q | q in t.receipts :: q in u.receipts && u.receipts[q] == t.receipts[q]
  }

  lemma {:induction false} RunKeepsReceipts(t: Task, calls: seq<Call>)
    ensures ReceiptsKept(t, Run(t, calls)) && t.revision <= Run(t, calls).revision
    decreases |calls|
  {
    if calls != [] {
      RunKeepsReceipts(Next(t, calls[0]), calls[1..]);
    }
  }

  /** An exact retry, after anything else has happened and whatever the world looks like by then,
      returns the first response and changes nothing. */
  lemma RetryReplays(t: Task, input: Input, w: World, calls: seq<Call>, later: World)
    requires Mutate(t, input, w).Ok?
    ensures var first := Mutate(t, input, w).value;
            var u := Run(first.0, calls);
            Mutate(u, input, later) == Ok((u, first.1))
  {
    RunKeepsReceipts(Mutate(t, input, w).value.0, calls);
  }

  /** Of two different requests that expect the same revision, at most one can advance it. */
  lemma OneWriterPerRevision(t: Task, first: Input, w: World, calls: seq<Call>, second: Input, later: World)
    requires Mutate(t, first, w).Ok? && first.request !in t.receipts && Advances(first.mutation)
    requires second.expectedRevision == first.expectedRevision
    requires second.request !in Run(After(t, first, w), calls).receipts
    ensures Mutate(Run(After(t, first, w), calls), second, later).Err?
  {
    RunKeepsReceipts(After(t, first, w), calls);
  }
}
