/** The attempt table of a run, updated one transaction at a time. */
module DiscoveryStore {
  import opened Wrappers
  import opened DiscoveryAttempts

  lemma ChargedNext(l: Ledger, k: nat)
    requires k < |l|
    ensures Charged(l[..k + 1]) == Plus(Charged(l[..k]), Charge(l[k]))
  {
    assert l[..k + 1] == l[..k] + [l[k]];
    ChargedAppend(l[..k], l[k]);
  }

  class Store {
    var rows: Ledger

    constructor ()
      ensures rows == []
    {
      rows := [];
    }

    method Lookup(digest: string) returns (i: int)
      ensures i == Find(rows, digest)
    {
      i := -1;
      for k := 0 to |rows|
        invariant i == Find(rows[..k], digest)
      {
        assert rows[..k + 1][..k] == rows[..k];
        if i < 0 && rows[k].digest == digest {
          i := k;
        }
      }
      assert rows[..|rows|] == rows;
    }

    /** Sum the charges of all rows, refusing invalid ones. */
    method UsedDiscoveryBudget() returns (r: Result<Budget, Answer>)
      ensures r == UsedBudget(rows)
    {
      var used := NOTHING;
      for k := 0 to |rows|
        invariant used == Charged(rows[..k]) && forall j | 0 <= j < k :: ValidRow(rows[j])
      {
        hide Charge, Charged;
        ChargedNext(rows, k);
        if !ValidRow(rows[k]) {
          return Err(Integrity);
        }
        used := Plus(used, Charge(rows[k]));
      }
      assert rows[..|rows|] == rows;
      if used.queries > MAX_QUERIES || used.selections > MAX_SELECTIONS {
        return Err(Integrity);
      }
      return Ok(used);
    }

    method ClaimAttempt(digest: string, mode: Mode, requested: Budget, now: nat) returns (answer: Answer)
      modifies this
      ensures (rows, answer) == AfterClaim(old(rows), digest, mode, requested, now)
    {
      if requested.queries > MAX_QUERIES || requested.selections > MAX_SELECTIONS {
        return Invalid;
      }
      var i := Lookup(digest);
      if i >= 0 {
        return Resolve(rows[i], mode);
      }
      if HasStarted(rows) {
        return if HasBrokenStarted(rows) then Integrity else Conflict;
      }
      var used := UsedDiscoveryBudget();
      if used.Err? {
        return used.error;
      }
      var granted := Granted(requested, used.value);
      rows := rows + [Row(digest, granted, NOTHING, Started, now, None)];
      return Execute(granted);
    }

    method CompleteAttempt(digest: string, mode: Mode, summary: Summary, now: nat) returns (answer: Answer)
      modifies this
      ensures (rows, answer) == AfterComplete(old(rows), digest, mode, summary, now)
    {
      if summary.mode != mode {
        return Integrity;
      }
      var i := Lookup(digest);
      if i < 0 || !ValidRow(rows[i]) || !rows[i].state.Started? {
        return Integrity;
      }
      if summary.queries > rows[i].reserved.queries || summary.selected > rows[i].reserved.selections {
        return Integrity;
      }
      var before := rows;
      rows := rows[i := rows[i].(state := Completed(summary), consumed := Budget(summary.queries, summary.selected),
                                 finishedAt := Some(now))];
      if !ValidRow(rows[i]) {
        rows := before;
        return Integrity;
      }
      return Done(summary);
    }

    method FailAttempt(digest: string, failure: Failure, now: nat) returns (answer: Answer)
      modifies this
      ensures (rows, answer) == AfterFail(old(rows), digest, failure, now)
    {
      var i := Lookup(digest);
      if i < 0 || !ValidRow(rows[i]) || !rows[i].state.Started? {
        return Integrity;
      }
      var before := rows;
      rows := rows[i := rows[i].(state := Failed(failure), consumed := rows[i].reserved, finishedAt := Some(now))];
      if !ValidRow(rows[i]) {
        rows := before;
        return Integrity;
      }
      return StoredFailure(if failure.Cancelled? then CANCELLED_TEXT else failure.code);
    }
  }
}
