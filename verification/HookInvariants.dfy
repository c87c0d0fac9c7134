/** What every interleaving of hook transactions keeps. */
module HookInvariants {
  import opened Wrappers
  import opened HookTables

  /** The row carries the admission of its root: same run, delivery and repository state. */
  ghost predicate Rooted(t: Tables, k: (Identity, CallId)) {
    && k in t.calls && (k.0, t.calls[k].root) in t.calls && k.0 in t.requests
    && (var root := t.calls[(k.0, t.calls[k].root)];
        root.root == t.calls[k].root && root.run == t.calls[k].run
        && root.delivery == t.calls[k].delivery && root.state == t.calls[k].state)
  }

  /** Client-observed evidence repeats the call row it came from, and that row knows it has evidence. */
  ghost predicate Traced(t: Tables, e: Evidence) {
    && e.origin in t.calls
    && (var c := t.calls[e.origin];
        e.run == c.run && e.delivery == c.delivery && e.execution == c.input && e.state == c.state && c.evidence.Some?)
    && e.exit.Some? && e.outcome == (if e.exit == Some(0) then Passed else NotPassed)
  }

  ghost predicate Observed(t: Tables, k: nat) {
    k < |t.evidence| && t.evidence[k].provenance.ClientObserved?
  }

  ghost predicate RowsRooted(t: Tables) {
    forall k | k in t.calls :: Rooted(t, k)
  }

  ghost predicate LinksObserved(t: Tables) {
    forall k | k in t.calls && t.calls[k].evidence.Some? :: Observed(t, t.calls[k].evidence.value)
  }

  ghost predicate EvidenceTraced(t: Tables) {
    forall i: nat | Observed(t, i) :: Traced(t, t.evidence[i])
  }

  /** No call row originates two evidence rows. */
  ghost predicate OneEvidencePerCall(t: Tables) {
    forall i: nat, j: nat | Observed(t, i) && Observed(t, j) && t.evidence[i].origin == t.evidence[j].origin :: i == j
  }

  ghost predicate ProcessesOwned(t: Tables) {
    forall p | p in t.processes :: (p.0, t.processes[p]) in t.calls
  }

  ghost predicate Inv(t: Tables) {
    RowsRooted(t) && LinksObserved(t) && EvidenceTraced(t) && OneEvidencePerCall(t) && ProcessesOwned(t)
  }

  lemma InvEmpty()
    ensures Inv(Empty)
  {
  }

  /** Changes outside calls, processes and evidence, with no request row removed. */
  ghost predicate SameRecords(t: Tables, u: Tables) {
    && u.calls == t.calls && u.processes == t.processes && u.evidence == t.evidence
    && t.requests.Keys <= u.requests.Keys
  }

  lemma SequencedKeepsRecords(t: Tables, run: RunId)
    ensures SameRecords(t, Sequenced(t, run)) && Sequenced(t, run).requests == t.requests
  {
  }

  lemma SameRowsAreRooted(t: Tables, u: Tables)
    requires RowsRooted(t) && u.calls == t.calls && t.requests.Keys <= u.requests.Keys
    ensures RowsRooted(u)
  {
    forall k | k in u.calls
      ensures Rooted(u, k)
    {
      assert Rooted(t, k);
    }
  }

  lemma SameEvidenceIsTraced(t: Tables, u: Tables)
    requires u.calls == t.calls && u.evidence == t.evidence
    ensures LinksObserved(t) ==> LinksObserved(u)
    ensures EvidenceTraced(t) ==> EvidenceTraced(u)
    ensures OneEvidencePerCall(t) ==> OneEvidencePerCall(u)
  {
    assert forall i: nat :: Observed(u, i) <==> Observed(t, i);
    assert forall i: nat | Observed(t, i) :: Traced(t, t.evidence[i]) ==> Traced(u, u.evidence[i]);
  }

  lemma InvSameRecords(t: Tables, u: Tables)
    requires Inv(t) && SameRecords(t, u)
    ensures Inv(u)
  {
    hide RowsRooted, LinksObserved, EvidenceTraced, OneEvidencePerCall;
    SameRowsAreRooted(t, u);
    SameEvidenceIsTraced(t, u);
  }

  /** A call row may be added, or its evidence, later state and completion updated; what it was admitted
      with stays, and recorded evidence is never taken away. */
  ghost predicate RowKept(old_: Call, new_: Call) {
    && new_.run == old_.run && new_.delivery == old_.delivery && new_.input == old_.input
    && new_.state == old_.state && new_.root == old_.root
    && (old_.evidence.Some? ==> new_.evidence.Some?)
  }

  /** The row may be written: it keeps what was admitted, or it is rooted in an existing admission. */
  ghost predicate Writable(t: Tables, id: Identity, c: CallId, row: Call) {
    if (id, c) in t.calls then RowKept(t.calls[(id, c)], row)
    else || row.root == c
         || ((id, row.root) in t.calls
             && (var root := t.calls[(id, row.root)];
                 root.root == row.root && root.run == row.run && root.delivery == row.delivery && root.state == row.state))
  }

  lemma PutCallRooted(t: Tables, id: Identity, c: CallId, row: Call)
    requires RowsRooted(t) && id in t.requests && Writable(t, id, c, row)
    ensures RowsRooted(PutCall(t, id, c, row))
  {
  }

  lemma PutCallTraced(t: Tables, id: Identity, c: CallId, row: Call)
    requires EvidenceTraced(t) && Writable(t, id, c, row)
    ensures EvidenceTraced(PutCall(t, id, c, row))
  {
  }

  lemma SameEvidence(t: Tables, u: Tables)
    requires u.evidence == t.evidence
    ensures forall i: nat :: Observed(u, i) <==> Observed(t, i)
    ensures OneEvidencePerCall(t) ==> OneEvidencePerCall(u)
  {
  }

  lemma InvPutCall(t: Tables, id: Identity, c: CallId, row: Call)
    requires Inv(t) && id in t.requests && Writable(t, id, c, row)
    requires row.evidence.Some? ==> Observed(t, row.evidence.value)
    ensures Inv(PutCall(t, id, c, row))
  {
    var u := PutCall(t, id, c, row);
    PutCallRooted(t, id, c, row);
    PutCallTraced(t, id, c, row);
    SameEvidence(t, u);
    assert LinksObserved(u) by {
      forall k | k in u.calls && u.calls[k].evidence.Some?
        ensures Observed(u, u.calls[k].evidence.value)
      {
        if k != (id, c) {
          assert Observed(t, t.calls[k].evidence.value);
        }
      }
    }
  }

  lemma InvPutProcess(t: Tables, id: Identity, session: string, c: CallId)
    requires Inv(t) && (id, c) in t.calls
    ensures Inv(t.(processes := t.processes[(id, session) := c]))
  {
    hide RowsRooted, LinksObserved, EvidenceTraced, OneEvidencePerCall;
    var u := t.(processes := t.processes[(id, session) := c]);
    SameRowsAreRooted(t, u);
    SameEvidenceIsTraced(t, u);
  }

  /** Evidence that the model reports. */
  function AppendReported(t: Tables, e: Evidence): Tables {
    t.(evidence := t.evidence + [e])
  }

  lemma ReportedIsNotObserved(t: Tables, e: Evidence)
    requires e.provenance.ModelReported?
    ensures forall i: nat :: Observed(AppendReported(t, e), i) <==> Observed(t, i)
    ensures forall i: nat | Observed(t, i) :: AppendReported(t, e).evidence[i] == t.evidence[i]
  {
  }

  lemma ReportKeepsRows(t: Tables, e: Evidence)
    requires RowsRooted(t) && ProcessesOwned(t)
    ensures RowsRooted(AppendReported(t, e)) && ProcessesOwned(AppendReported(t, e))
  {
    forall k | k in t.calls
      ensures Rooted(AppendReported(t, e), k)
    {
      assert Rooted(t, k);
    }
  }

  lemma ReportKeepsEvidence(t: Tables, e: Evidence)
    requires EvidenceTraced(t) && OneEvidencePerCall(t) && LinksObserved(t) && e.provenance.ModelReported?
    ensures var u := AppendReported(t, e);
            EvidenceTraced(u) && OneEvidencePerCall(u) && LinksObserved(u)
  {
    var u := AppendReported(t, e);
    ReportedIsNotObserved(t, e);
    hide Observed;
    forall i: nat | Observed(u, i)
      ensures Traced(u, u.evidence[i])
    {
      assert Traced(t, t.evidence[i]);
    }
  }

  lemma InvAppendReported(t: Tables, e: Evidence)
    requires Inv(t) && e.provenance.ModelReported?
    ensures Inv(AppendReported(t, e))
  {
    hide RowsRooted, ProcessesOwned, EvidenceTraced, OneEvidencePerCall, LinksObserved;
    ReportKeepsRows(t, e);
    ReportKeepsEvidence(t, e);
  }

  /** The first evidence of a call row, linked at once. */
  function AppendObserved(t: Tables, e: Evidence, row: Call): Tables {
    t.(evidence := t.evidence + [e], calls := t.calls[e.origin := row])
  }

  ghost predicate FirstEvidence(t: Tables, e: Evidence, row: Call) {
    && e.provenance.ClientObserved? && e.origin in t.calls && t.calls[e.origin].evidence.None?
    && RowKept(t.calls[e.origin], row) && row.evidence == Some(|t.evidence|)
    && e.run == row.run && e.delivery == row.delivery && e.execution == row.input && e.state == row.state
    && e.exit.Some? && e.outcome == (if e.exit == Some(0) then Passed else NotPassed)
  }

  lemma AppendedTraced(t: Tables, e: Evidence, row: Call)
    requires EvidenceTraced(t) && FirstEvidence(t, e, row)
    ensures EvidenceTraced(AppendObserved(t, e, row))
    ensures forall i: nat | Observed(t, i) :: t.evidence[i].origin != e.origin
  {
  }

  lemma AppendedOnce(t: Tables, e: Evidence, row: Call)
    requires OneEvidencePerCall(t)
    requires forall i: nat | Observed(t, i) :: t.evidence[i].origin != e.origin
    ensures OneEvidencePerCall(AppendObserved(t, e, row))
  {
  }

  lemma AppendedLinks(t: Tables, e: Evidence, row: Call)
    requires LinksObserved(t) && FirstEvidence(t, e, row)
    ensures LinksObserved(AppendObserved(t, e, row))
  {
  }

  lemma InvAppendObserved(t: Tables, e: Evidence, row: Call)
    requires Inv(t) && FirstEvidence(t, e, row)
    ensures Inv(AppendObserved(t, e, row))
  {
    var u := AppendObserved(t, e, row);
    AppendedTraced(t, e, row);
    AppendedOnce(t, e, row);
    AppendedLinks(t, e, row);
    assert RowsRooted(u) by {
      forall k | k in u.calls
        ensures Rooted(u, k)
      {
        assert Rooted(t, k);
      }
    }
  }
}
