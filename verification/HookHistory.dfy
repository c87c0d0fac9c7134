/** Where recorded evidence comes from, over every run from empty tables: the step that admitted the call,
    and the later step that completed it. */
module HookHistory {
  import opened Wrappers
  import opened HookTables
  import opened HookInvariants
  import opened HookSafety

  lemma {:induction false} RunSnoc(t: Tables, xs: seq<Transaction>, x: Transaction)
    ensures Run(t, xs + [x]) == Apply(Run(t, xs), x)
    decreases |xs|
  {
    hide Apply;
    if xs == [] {
      assert Run(t, [x]) == Run(Apply(t, x), []);
    } else {
      assert (xs + [x])[1..] == xs[1..] + [x];
      RunSnoc(Apply(t, xs[0]), xs[1..], x);
    }
  }

  /** The tables before step `k`. */
  function Before(xs: seq<Transaction>, k: nat): Tables
    requires k <= |xs|
  {
    Run(Empty, xs[..k])
  }

  lemma BeforeNext(xs: seq<Transaction>, k: nat)
    requires k < |xs|
    ensures Before(xs, k + 1) == Apply(Before(xs, k), xs[k]) && Inv(Before(xs, k))
  {
    hide Apply, Inv, Run;
    assert xs[..k + 1] == xs[..k] + [xs[k]];
    RunSnoc(Empty, xs[..k], xs[k]);
    InvEmpty();
    EvidenceIsTraced(Empty, xs[..k]);
  }

  /** Step `k` admits the row: its request was bound, unstopped and active on the run, with the delivery of that moment. */
  ghost predicate AdmittedAt(xs: seq<Transaction>, k: nat, key: (Identity, CallId), row: Call) {
    && k < |xs| && xs[k].TAdmit?
    && (var a := xs[k].admission;
        && (a.identity, a.call) == key && a.reviewed
        && a.boundRun == row.run && a.delivery == row.delivery && a.input == row.input && a.state == row.state
        && Admissible(Before(xs, k), key.0, row.run) && DeliveryOf(Before(xs, k), row.run) == row.delivery)
  }

  /** Every row that is its own root was admitted by some step. */
  lemma {:induction false} AdmissionIsTraced(xs: seq<Transaction>, n: nat, key: (Identity, CallId))
    requires n <= |xs| && key in Before(xs, n).calls && Before(xs, n).calls[key].root == key.1
    ensures exists k | 0 <= k < n :: AdmittedAt(xs, k, key, Before(xs, n).calls[key])
    decreases n
  {
    hide Apply, Inv, Admissible, DeliveryOf;
    if n > 0 {
      hide Before;
      var t := Before(xs, n - 1);
      BeforeNext(xs, n - 1);
      RowsOnlyGrow(t, xs[n - 1]);
      if key in t.calls {
        AdmissionIsTraced(xs, n - 1, key);
        var k :| 0 <= k < n - 1 && AdmittedAt(xs, k, key, t.calls[key]);
        assert AdmittedAt(xs, k, key, Before(xs, n).calls[key]);
      } else {
        AdmissionsAreBound(t, xs[n - 1], key);
        assert AdmittedAt(xs, n - 1, key, Before(xs, n).calls[key]);
      }
    }
  }

  /** Step `m` completes the call that the evidence names and appends the evidence as row `i`: the request is bound,
      unstopped and active on the run, and the call, which has no evidence yet, carries its delivery and state. */
  ghost predicate RecordedAt(xs: seq<Transaction>, m: nat, i: nat, e: Evidence) {
    && m < |xs| && xs[m].TComplete?
    && (var t, x := Before(xs, m), xs[m].completion;
        && x.identity == e.origin.0 && x.boundRun == e.run && x.root == e.root
        && x.digest == Some(e.state) && ExitCode(x) == e.exit
        && SelectCall(t, x) == Some(e.origin.1) && Admissible(t, x.identity, e.run)
        && e.origin in t.calls && t.calls[e.origin].evidence.None?
        && t.calls[e.origin].run == e.run && t.calls[e.origin].delivery == e.delivery
        && t.calls[e.origin].state == e.state && t.calls[e.origin].input == e.execution
        && |t.evidence| == i && Before(xs, m + 1).evidence == t.evidence + [e])
  }

  lemma {:induction false} RecordingIsTraced(xs: seq<Transaction>, n: nat, i: nat)
    requires n <= |xs| && Observed(Before(xs, n), i)
    ensures exists m | 0 <= m < n :: RecordedAt(xs, m, i, Before(xs, n).evidence[i])
    decreases n
  {
    hide Apply, Inv, Admissible, SelectCall, ExitCode;
    if n > 0 {
      hide Before;
      var t, x := Before(xs, n - 1), xs[n - 1];
      BeforeNext(xs, n - 1);
      EvidenceOnlyGrows(t, x);
      if i < |t.evidence| {
        RecordingIsTraced(xs, n - 1, i);
        var m :| 0 <= m < n - 1 && RecordedAt(xs, m, i, t.evidence[i]);
        assert RecordedAt(xs, m, i, Before(xs, n).evidence[i]);
      } else {
        CompletionRecords(t, x, i);
        assert RecordedAt(xs, n - 1, i, Before(xs, n).evidence[i]);
      }
    }
  }

  lemma EvidenceOnlyGrows(t: Tables, x: Transaction)
    requires Inv(t)
    ensures |t.evidence| <= |Apply(t, x).evidence|
    ensures forall i: nat | i < |t.evidence| :: Apply(t, x).evidence[i] == t.evidence[i]
  {
    hide Inv, Complete, Admit, Recording, NewEvidence, Admissible;
    if x.TComplete? {
      RecordedUnderBinding(t, x.completion);
    } else if x.TAdmit? {
      AdmissionKeepsRows(t, x.admission);
    } else {
      OthersKeepRows(t, x);
    }
  }

  /** Only a completion adds an observed row. */
  lemma CompletionRecords(t: Tables, x: Transaction, i: nat)
    requires Inv(t) && Observed(Apply(t, x), i) && i >= |t.evidence|
    ensures x.TComplete? && i == |t.evidence| && SelectCall(t, x.completion).Some?
    ensures var c := SelectCall(t, x.completion).value;
            && Recording(t, x.completion, c) && Admissible(t, x.completion.identity, x.completion.boundRun)
            && t.calls[(x.completion.identity, c)].run == x.completion.boundRun
            && Apply(t, x).evidence == t.evidence + [NewEvidence(t, x.completion, c)]
  {
    hide Inv, Complete, Admit, Admissible, ExitCode, SelectCall;
    if x.TComplete? {
      RecordedUnderBinding(t, x.completion);
    } else if x.TAdmit? {
      AdmissionKeepsRows(t, x.admission);
    } else {
      OthersKeepRows(t, x);
    }
  }

  /** Step `k` is the admission that the evidence recorded at step `m` rests on: of the call itself, or, for a poll without
      an admission of its own, of the call whose admission the poll's row carries. */
  ghost predicate RestsOn(xs: seq<Transaction>, k: nat, m: nat, e: Evidence) {
    && k < m < |xs| && xs[k].TAdmit? && e.origin in Before(xs, m).calls
    && (var a := xs[k].admission;
        && a.identity == e.origin.0 && a.call == Before(xs, m).calls[e.origin].root && a.reviewed
        && a.boundRun == e.run && a.delivery == e.delivery && a.state == e.state
        && (a.call == e.origin.1 ==> a.input == e.execution)
        && Admissible(Before(xs, k), a.identity, e.run) && DeliveryOf(Before(xs, k), e.run) == e.delivery)
  }

  /** Whatever handlers ran in whatever interleaving, each client-observed evidence row was recorded by a completion, after
      an admission for the same identity, run, delivery and repository state; both found the request
      bound, unstopped and active on that run. */
  lemma EvidenceHasHistory(xs: seq<Transaction>, i: nat)
    requires Observed(Run(Empty, xs), i)
    ensures exists k: nat, m: nat ::
              RestsOn(xs, k, m, Run(Empty, xs).evidence[i]) && RecordedAt(xs, m, i, Run(Empty, xs).evidence[i])
  {
    hide Inv, Run, Admissible, DeliveryOf, SelectCall, ExitCode;
    assert xs[..|xs|] == xs;
    var e := Run(Empty, xs).evidence[i];
    RecordingIsTraced(xs, |xs|, i);
    var m :| 0 <= m < |xs| && RecordedAt(xs, m, i, e);
    var t := Before(xs, m);
    BeforeNext(xs, m);
    RowIsRooted(t, e.origin);
    var key := (e.origin.0, t.calls[e.origin].root);
    AdmissionIsTraced(xs, m, key);
    var k :| 0 <= k < m && AdmittedAt(xs, k, key, t.calls[key]);
    assert RestsOn(xs, k, m, e);
  }
}
