/** What claims, completions and failures answer and charge. */
module DiscoveryOutcomes {
  import opened Wrappers
  import opened DiscoveryAttempts

  // Sums of charges.

  lemma {:induction false} ChargedExactly(l: Ledger, i: nat, r: Row)
    requires i < |l|
    ensures Plus(Charged(l[i := r]), Charge(l[i])) == Plus(Charged(l), Charge(r))
  {
    var n := |l| - 1;
    if i == n {
      assert l[i := r][..n] == l[..n];
    } else {
      assert l[i := r][..n] == l[..n][i := r];
      hide Charge;
      ChargedExactly(l[..n], i, r);
    }
  }

  /** The ledger holds a row for the digest. */
  predicate Known(l: Ledger, digest: string) {
    exists i | 0 <= i < |l| :: l[i].digest == digest
  }

  /** The attempt `i` is the open one with this digest. */
  predicate IsOpen(l: Ledger, i: int, digest: string) {
    0 <= i < |l| && l[i].digest == digest && l[i].state == Started
  }

  /** The largest grant: what was asked for, as far as the run has it left; nothing at all when either part would be zero. */
  predicate Grants(granted: Budget, requested: Budget, used: Budget) {
    if requested.queries == 0 || requested.selections == 0 || used.queries == 3 || used.selections == 2 then granted == NOTHING
    else && 1 <= granted.queries <= requested.queries && granted.queries + used.queries <= 3
         && (granted.queries == requested.queries || granted.queries + used.queries == 3)
         && 1 <= granted.selections <= requested.selections && granted.selections + used.selections <= 2
         && (granted.selections == requested.selections || granted.selections + used.selections == 2)
  }

  lemma GrantedIsLargest(requested: Budget, used: Budget)
    requires Within(used, LIMIT)
    ensures Grants(Granted(requested, used), requested, used)
  {
  }

  lemma KnownIsFound(l: Ledger, digest: string)
    ensures Known(l, digest) <==> Find(l, digest) >= 0
  {
  }

  /** A claim executes exactly when it asks for no more than a run may spend, its digest is new and no attempt is open; it then
      opens an attempt with the largest grant that the limits of the run leave. */
  lemma ClaimExecutes(l: Ledger, digest: string, mode: Mode, requested: Budget, now: nat)
    requires Inv(l)
    ensures var (u, answer) := AfterClaim(l, digest, mode, requested, now);
            && (answer.Execute? <==> && requested.queries <= 3 && requested.selections <= 2 && !Known(l, digest)
                                     && forall i | 0 <= i < |l| :: l[i].state != Started)
            && (requested.queries > 3 || requested.selections > 2 ==> answer == Invalid)
            && (answer.Execute? ==>
                  && Grants(answer.budget, requested, Charged(l))
                  && u == l + [Row(digest, answer.budget, NOTHING, Started, now, None)]
                  && Charged(u) == Plus(Charged(l), answer.budget))
            && (!answer.Execute? ==> u == l)
  {
    KnownIsFound(l, digest);
    NeverOverspent(l);
    GrantedIsLargest(requested, Charged(l));
    hide Known, Inv, Granted, Grants, Find, UsedBudget, Charged, Resolve;
    var (u, answer) := AfterClaim(l, digest, mode, requested, now);
    if answer.Execute? {
      ChargedAppend(l, Row(digest, answer.budget, NOTHING, Started, now, None));
    }
  }

  /** What a claim that does not execute answers: a conflict while an attempt is open, or how the finished attempt ended. */
  lemma ClaimAnswers(l: Ledger, digest: string, mode: Mode, requested: Budget, now: nat, i: nat)
    requires Inv(l) && Within(requested, LIMIT) && i < |l|
    ensures var answer := AfterClaim(l, digest, mode, requested, now).1;
            && (!Known(l, digest) && l[i].state == Started ==> answer == Conflict)
            && (l[i].digest == digest ==>
                  answer == match l[i].state
                            case Started => Conflict
                            case Completed(summary) => if summary.mode == mode then Replay(summary) else Integrity
                            case Failed(Cancelled) => Replay(Summary(mode, 0, 0, "task_request_cancelled"))
                            case Failed(Raised(code)) => StoredFailure(code))
  {
    KnownIsFound(l, digest);
    if l[i].digest == digest {
      FindIs(l, i);
      assert ValidRow(l[i]);
      hide Inv, Find, Known;
    } else {
      NoBrokenStarted(l);
      hide Inv, Find, Known, HasBrokenStarted;
    }
  }

  lemma NoBrokenStarted(l: Ledger)
    requires Inv(l)
    ensures !HasBrokenStarted(l)
  {
  }

  /** A completion succeeds exactly for the open attempt, in the claimed mode, within its reservation and with a clock that has not
      gone backwards; it then stores the summary, and what was reserved and not used can be granted again. */
  lemma CompletionRefunds(l: Ledger, digest: string, mode: Mode, summary: Summary, now: nat)
    requires Inv(l)
    ensures var (u, answer) := AfterComplete(l, digest, mode, summary, now);
            var spent := Budget(summary.queries, summary.selected);
            && (answer == Done(summary) <==>
                  exists i :: && IsOpen(l, i, digest) && summary.mode == mode && Within(spent, l[i].reserved)
                              && l[i].startedAt <= now)
            && (answer != Done(summary) ==> u == l && answer == Integrity)
            && (forall i | IsOpen(l, i, digest) && answer == Done(summary) ::
                  && u == l[i := l[i].(state := Completed(summary), consumed := spent, finishedAt := Some(now))]
                  && Plus(Charged(u), l[i].reserved) == Plus(Charged(l), spent))
  {
    OpenIsOpen(l, digest);
    var k := Open(l, digest);
    var spent := Budget(summary.queries, summary.selected);
    if k >= 0 {
      assert IsOpen(l, k, digest) && ValidRow(l[k]);
      ChargedExactly(l, k, l[k].(state := Completed(summary), consumed := spent, finishedAt := Some(now)));
    }
    hide Inv, Open, Charged;
  }

  /** A failure closes the open attempt with its whole reservation consumed, so nothing of it can be granted again. */
  lemma FailureConsumes(l: Ledger, digest: string, failure: Failure, now: nat)
    requires Inv(l)
    ensures var (u, answer) := AfterFail(l, digest, failure, now);
            && (u != l <==> exists i :: IsOpen(l, i, digest) && l[i].startedAt <= now)
            && (u == l ==> answer == Integrity)
            && (forall i | IsOpen(l, i, digest) && u != l ::
                  && u == l[i := l[i].(state := Failed(failure), consumed := l[i].reserved, finishedAt := Some(now))]
                  && Charged(u) == Charged(l)
                  && answer == StoredFailure(if failure.Cancelled? then "task_request_cancelled" else failure.code))
  {
    OpenIsOpen(l, digest);
    var k := Open(l, digest);
    if k >= 0 {
      assert IsOpen(l, k, digest) && ValidRow(l[k]);
      var r := l[k].(state := Failed(failure), consumed := l[k].reserved, finishedAt := Some(now));
      ChargedExactly(l, k, r);
      assert l[k := r][k] == r;
    }
    hide Inv, Open, Charged;
  }

  lemma OpenIsOpen(l: Ledger, digest: string)
    requires Inv(l)
    ensures forall i :: IsOpen(l, i, digest) <==> i >= 0 && i == Open(l, digest)
  {
    forall i | IsOpen(l, i, digest)
      ensures i == Open(l, digest)
    {
      FindIs(l, i);
      assert ValidRow(l[i]);
    }
  }
}
