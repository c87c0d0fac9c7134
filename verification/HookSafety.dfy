/** Safety of the hook transactions over every interleaving: evidence is traced to an admission, a call
    originates at most one evidence row, and a stopped turn stays stopped. */
module HookSafety {
  import opened Wrappers
  import opened HookTables
  import opened HookInvariants

  // The completion transaction keeps the invariant.

  lemma BindReceiptKeeps(t: Tables, x: CompletionEvent, c: CallId)
    requires Inv(t) && (x.identity, c) in t.calls
    ensures var u := BindReceipt(t, x, c);
            Inv(u) && u.calls == t.calls && u.assurance == t.assurance && u.requests == t.requests && u.evidence == t.evidence
  {
    hide UsedReceipt, Inv;
    var receipt := UsedReceipt(x);
    if receipt.Some? {
      InvPutProcess(t, x.identity, receipt.value.process, c);
    }
  }

  lemma RegisterPollKeeps(t: Tables, x: CompletionEvent, c: CallId)
    requires Inv(t) && (x.identity, c) in t.calls
    ensures var u := RegisterPoll(t, x, c);
            Inv(u) && (x.identity, c) in u.calls && (x.identity, x.call) in u.calls && u.assurance == t.assurance
            && u.calls[(x.identity, c)] == t.calls[(x.identity, c)]
  {
    hide BindReceipt, Inv;
    RowIsRooted(t, (x.identity, c));
    BindReceiptKeeps(t, x, c);
    if (x.identity, x.call) !in t.calls {
      var call := t.calls[(x.identity, c)];
      InvPutCall(BindReceipt(t, x, c), x.identity, x.call,
                 Call(call.run, call.delivery, x.input, call.state, None, None, Unknown, call.root));
    }
  }

  lemma RegisterProcessKeeps(t: Tables, x: CompletionEvent, c: CallId)
    requires Inv(t) && (x.identity, c) in t.calls
    ensures var u := RegisterProcess(t, x, c);
            u.Some? ==> Inv(u.value) && u.value.calls == t.calls && u.value.assurance == t.assurance
  {
    hide Inv;
    if x.session.Some? {
      InvPutProcess(t, x.identity, x.session.value, c);
    }
  }

  lemma MarkChangedKeeps(t: Tables, x: CompletionEvent, c: CallId, digest: Digest)
    requires Inv(t) && (x.identity, c) in t.calls && x.boundRun in t.assurance
    ensures Inv(MarkChanged(t, x, c, digest))
  {
    hide Inv;
    var call := t.calls[(x.identity, c)];
    if call.after.None? {
      RowIsRooted(t, (x.identity, c));
      var a := t.assurance[x.boundRun];
      var a' := if a.observed != Some(digest)
                then a.(changed := true, observed := Some(digest), revision := a.revision + 1) else a;
      var u := Sequenced(t.(assurance := t.assurance[x.boundRun := a']), x.boundRun);
      InvSameRecords(t, u);
      LinkOf(u, (x.identity, c));
      InvPutCall(u, x.identity, c, call.(after := Some(digest)));
    }
  }

  lemma LinkOf(t: Tables, k: (Identity, CallId))
    requires Inv(t) && k in t.calls
    ensures t.calls[k].evidence.Some? ==>
              Observed(t, t.calls[k].evidence.value) && !t.evidence[t.calls[k].evidence.value].outcome.Unclear?
  {
  }

  lemma RowIsRooted(t: Tables, k: (Identity, CallId))
    requires Inv(t) && k in t.calls
    ensures Rooted(t, k)
  {
  }

  lemma NoteUnfinishedKeeps(t: Tables, x: CompletionEvent, c: CallId)
    requires Inv(t) && (x.identity, c) in t.calls
    ensures Inv(NoteUnfinished(t, x, c).0)
  {
    hide Inv;
    var call := t.calls[(x.identity, c)];
    RowIsRooted(t, (x.identity, c));
    var next := if x.running then Running else Unknown;
    if !(call.completion == next || (call.completion.Unknown? && x.running)) {
      var n := CountersOf(t, x.boundRun);
      var counts := call.completion.Admitted? || next.Unknown?;
      var n' := if !counts then n else if x.running then n.(running := n.running + 1) else n.(unknownExit := n.unknownExit + 1);
      var u := t.(counters := t.counters[x.boundRun := n']);
      var v := if counts then Sequenced(u, x.boundRun) else u;
      InvSameRecords(t, v);
      LinkOf(v, (x.identity, c));
      InvPutCall(v, x.identity, c, call.(completion := next));
    }
  }

  lemma LinkPollKeeps(t: Tables, x: CompletionEvent, c: CallId, e: nat)
    requires Inv(t) && Observed(t, e)
    ensures Inv(LinkPoll(t, x, c, e))
  {
    if c != x.call && (x.identity, x.call) in t.calls {
      assert Rooted(t, (x.identity, x.call));
      InvPutCall(t, x.identity, x.call, t.calls[(x.identity, x.call)].(evidence := Some(e), completion := Finished));
    }
  }

  // Recording, as an append to the counted tables followed by the poll's link.

  function Counted(t: Tables, run: RunId): Tables {
    var n := CountersOf(t, run);
    Sequenced(t.(counters := t.counters[run := n.(structuredExit := n.structuredExit + 1)]), run)
  }

  lemma CountedKeeps(t: Tables, run: RunId)
    ensures SameRecords(t, Counted(t, run)) && Counted(t, run).requests == t.requests
  {
  }

  function RecordedEvidence(t: Tables, x: CompletionEvent, c: CallId, delivery: Option<string>, digest: Digest, exit: int): Evidence
    requires (x.identity, c) in t.calls
  {
    Evidence(x.boundRun, delivery, x.root, t.calls[(x.identity, c)].input, digest,
             if exit == 0 then Passed else NotPassed, Some(exit), ClientObserved, (x.identity, c))
  }

  function RecordedRow(t: Tables, k: (Identity, CallId)): Call
    requires k in t.calls
  {
    t.calls[k].(evidence := Some(|t.evidence|), completion := Finished)
  }

  function Appended(t: Tables, x: CompletionEvent, c: CallId, delivery: Option<string>, digest: Digest, exit: int): Tables
    requires (x.identity, c) in t.calls
  {
    AppendObserved(Counted(t, x.boundRun), RecordedEvidence(t, x, c, delivery, digest, exit), RecordedRow(t, (x.identity, c)))
  }

  lemma RecordIsAppended(t: Tables, x: CompletionEvent, c: CallId, delivery: Option<string>, digest: Digest, exit: int)
    requires (x.identity, c) in t.calls
    ensures Record(t, x, c, delivery, digest, exit).0 == LinkPoll(Appended(t, x, c, delivery, digest, exit), x, c, |t.evidence|)
  {
    hide LinkPoll, CountersOf;
  }

  lemma RecordKeeps(t: Tables, x: CompletionEvent, c: CallId, delivery: Option<string>, digest: Digest, exit: int)
    requires Inv(t) && (x.identity, c) in t.calls
    requires var call := t.calls[(x.identity, c)];
             call.evidence.None? && call.run == x.boundRun && call.delivery == delivery && call.state == digest
    ensures Inv(Record(t, x, c, delivery, digest, exit).0)
  {
    hide Inv, Counted, LinkPoll, FirstEvidence, AppendObserved, Observed;
    var e, row := RecordedEvidence(t, x, c, delivery, digest, exit), RecordedRow(t, (x.identity, c));
    var v := Counted(t, x.boundRun);
    RecordIsAppended(t, x, c, delivery, digest, exit);
    hide Record;
    CountedKeeps(t, x.boundRun);
    InvSameRecords(t, v);
    FirstOf(v, e, row);
    InvAppendObserved(v, e, row);
    AppendedIsObserved(v, e, row);
    LinkPollKeeps(AppendObserved(v, e, row), x, c, |t.evidence|);
  }

  lemma FirstOf(t: Tables, e: Evidence, row: Call)
    requires e.origin in t.calls && t.calls[e.origin].evidence.None? && e.provenance.ClientObserved?
              && row.evidence == Some(|t.evidence|)
    requires row == t.calls[e.origin].(evidence := Some(|t.evidence|), completion := Finished)
    requires e.run == row.run && e.delivery == row.delivery && e.state == row.state && e.execution == row.input
    requires e.exit.Some? && e.outcome == (if e.exit == Some(0) then Passed else NotPassed)
    ensures FirstEvidence(t, e, row)
  {
  }

  lemma AppendedIsObserved(t: Tables, e: Evidence, row: Call)
    requires e.provenance.ClientObserved?
    ensures Observed(AppendObserved(t, e, row), |t.evidence|)
  {
  }

  lemma SettleKeeps(t: Tables, x: CompletionEvent, c: CallId)
    requires Inv(t) && (x.identity, c) in t.calls && x.boundRun in t.assurance
    requires t.calls[(x.identity, c)].run == x.boundRun
    ensures Inv(Settle(t, x, c).0)
  {
    var call := t.calls[(x.identity, c)];
    LinkOf(t, (x.identity, c));
    if call.delivery != t.assurance[x.boundRun].delivery {
    } else if call.evidence.Some? {
      LinkPollKeeps(t, x, c, call.evidence.value);
    } else if x.digest.Some? {
      if x.digest.value != call.state {
        MarkChangedKeeps(t, x, c, x.digest.value);
      } else if ExitCode(x).None? {
        NoteUnfinishedKeeps(t, x, c);
      } else {
        RecordKeeps(t, x, c, call.delivery, x.digest.value, ExitCode(x).value);
      }
    }
  }

  lemma SelectedCall(t: Tables, x: CompletionEvent)
    requires SelectCall(t, x).Some?
    ensures (x.identity, SelectCall(t, x).value) in t.calls
  {
  }

  lemma CompleteKeeps(t: Tables, x: CompletionEvent)
    requires Inv(t)
    ensures Inv(Complete(t, x).0)
  {
    if BindingHolds(t, x) {
      var c := SelectCall(t, x).value;
      SelectedCall(t, x);
      var u := RegisterPoll(t, x, c);
      RegisterPollKeeps(t, x, c);
      RegisterProcessKeeps(u, x, c);
      var v := RegisterProcess(u, x, c);
      if v.Some? {
        SettleKeeps(v.value, x, c);
      }
    }
  }

  lemma AdmitKeeps(t: Tables, x: AdmissionEvent)
    requires Inv(t)
    ensures Inv(Admit(t, x).0)
  {
    if Admissible(t, x.identity, x.boundRun) && (x.identity, x.call) !in t.calls {
      var observed :=
        if x.boundRun in t.assurance && t.assurance[x.boundRun].observed.None?
        then t.(assurance := t.assurance[x.boundRun := t.assurance[x.boundRun].(observed := Some(x.state))]) else t;
      InvSameRecords(t, observed);
      InvPutCall(observed, x.identity, x.call,
                 Call(x.boundRun, x.delivery, x.input, x.state, None, None, Admitted, x.call));
    }
  }

  lemma ApplyKeeps(t: Tables, x: Transaction)
    requires Inv(t)
    ensures Inv(Apply(t, x))
  {
    hide Inv, Admit, Complete, SameRecords;
    match x
    case TAdmit(a) => AdmitKeeps(t, a);
    case TComplete(c) => CompleteKeeps(t, c);
    case TReport(e) => InvAppendReported(t, e.(provenance := ModelReported));
    case _ =>
      OthersKeepRecords(t, x);
      InvSameRecords(t, Apply(t, x));
  }

  lemma EndingKeepsRecords(t: Tables, run: Option<RunId>, status: RunStatus)
    ensures SameRecords(t, EndRun(t, run, status)) && EndRun(t, run, status).requests == t.requests
  {
  }

  lemma DenialKeepsRecords(t: Tables, id: Identity, root: string)
    ensures SameRecords(t, DenyTurn(t, id, root))
  {
    hide EndRun;
    var row := if id in t.requests then t.requests[id].(stopped := true) else Request(root, None, Pending, true);
    EndingKeepsRecords(t.(requests := t.requests[id := row]), row.run, Failed);
  }

  lemma InterruptionKeepsRecords(t: Tables, id: Identity, run: Option<RunId>)
    ensures SameRecords(t, Interrupt(t, id, run))
  {
    hide EndRun;
    EndingKeepsRecords(t, run, Interrupted);
    if id in t.requests {
      EndingKeepsRecords(t.(requests := t.requests[id := t.requests[id].(state := Cancelled, stopped := true)]), run, Interrupted);
    }
  }

  lemma OthersKeepRecords(t: Tables, x: Transaction)
    requires !x.TAdmit? && !x.TComplete? && !x.TReport?
    ensures SameRecords(t, Apply(t, x))
  {
    hide Admit, Complete, DenyTurn, Interrupt;
    match x
    case TDeny(id, root) => DenialKeepsRecords(t, id, root);
    case TInterrupt(id, run) => InterruptionKeepsRecords(t, id, run);
    case _ =>
  }

  /** Whatever handlers ran in whatever interleaving, each client-observed evidence row comes from one
      call row, which carries the same run, delivery and repository state as its admission, and no
      call row originates two. */
  lemma {:induction false} EvidenceIsTraced(t: Tables, xs: seq<Transaction>)
    requires Inv(t)
    ensures Inv(Run(t, xs))
    decreases |xs|
  {
    if xs != [] {
      ApplyKeeps(t, xs[0]);
      EvidenceIsTraced(Apply(t, xs[0]), xs[1..]);
    }
  }

  /** The evidence that `Record` would append for this call. */
  function NewEvidence(t: Tables, x: CompletionEvent, c: CallId): Evidence
    requires (x.identity, c) in t.calls && ExitCode(x).Some? && x.digest.Some?
  {
    RecordedEvidence(t, x, c, t.calls[(x.identity, c)].delivery, x.digest.value, ExitCode(x).value)
  }

  /** The state in which a completion records evidence for the call. */
  ghost predicate Recording(t: Tables, x: CompletionEvent, c: CallId) {
    && (x.identity, c) in t.calls && x.boundRun in t.assurance
    && t.calls[(x.identity, c)].evidence.None?
    && t.calls[(x.identity, c)].delivery == t.assurance[x.boundRun].delivery
    && x.digest == Some(t.calls[(x.identity, c)].state) && ExitCode(x).Some?
  }

  lemma BranchesKeepEvidence(t: Tables, x: CompletionEvent, c: CallId, digest: Digest, e: nat)
    requires (x.identity, c) in t.calls && x.boundRun in t.assurance
    ensures MarkChanged(t, x, c, digest).evidence == t.evidence
    ensures NoteUnfinished(t, x, c).0.evidence == t.evidence
    ensures LinkPoll(t, x, c, e).evidence == t.evidence
  {
  }

  lemma RecordAppends(t: Tables, x: CompletionEvent, c: CallId)
    requires (x.identity, c) in t.calls && ExitCode(x).Some? && x.digest.Some?
    ensures Record(t, x, c, t.calls[(x.identity, c)].delivery, x.digest.value, ExitCode(x).value).0.evidence
            == t.evidence + [NewEvidence(t, x, c)]
  {
    hide ExitCode;
    RecordIsAppended(t, x, c, t.calls[(x.identity, c)].delivery, x.digest.value, ExitCode(x).value);
    CountedKeeps(t, x.boundRun);
    hide Record, Counted;
  }

  lemma SettleAppends(t: Tables, x: CompletionEvent, c: CallId)
    requires Inv(t) && (x.identity, c) in t.calls && x.boundRun in t.assurance
    ensures var u := Settle(t, x, c).0;
            u.evidence == t.evidence || (Recording(t, x, c) && u.evidence == t.evidence + [NewEvidence(t, x, c)])
  {
    var call := t.calls[(x.identity, c)];
    LinkOf(t, (x.identity, c));
    hide Inv, Observed, Record, MarkChanged, NoteUnfinished, LinkPoll, NewEvidence, ExitCode;
    if call.delivery != t.assurance[x.boundRun].delivery {
    } else if call.evidence.Some? {
      BranchesKeepEvidence(t, x, c, "", call.evidence.value);
    } else if x.digest.Some? {
      BranchesKeepEvidence(t, x, c, x.digest.value, 0);
      if ExitCode(x).Some? {
        RecordAppends(t, x, c);
      }
    }
  }

  ghost predicate SameBut(t: Tables, u: Tables) {
    u.evidence == t.evidence && u.assurance == t.assurance && u.runs == t.runs && u.requests == t.requests
  }

  lemma RegisteringPollKeepsTheRest(t: Tables, x: CompletionEvent, c: CallId)
    requires (x.identity, c) in t.calls
    ensures SameBut(t, RegisterPoll(t, x, c))
  {
    hide UsedReceipt;
  }

  lemma RegisteringProcessKeepsTheRest(t: Tables, x: CompletionEvent, c: CallId)
    ensures RegisterProcess(t, x, c).Some? ==> SameBut(t, RegisterProcess(t, x, c).value)
  {
  }

  /** A completion appends at most one evidence row, and only while its request is bound, unstopped and
      active, on that run, with the delivery the call was admitted with, at the repository state it was
      admitted at, for a call that has none; the outcome is passed exactly on exit code 0. */
  lemma RecordedUnderBinding(t: Tables, x: CompletionEvent)
    requires Inv(t)
    ensures var u := Complete(t, x).0;
            || u.evidence == t.evidence
            || (&& SelectCall(t, x).Some? && Recording(t, x, SelectCall(t, x).value)
                && Admissible(t, x.identity, x.boundRun) && t.calls[(x.identity, SelectCall(t, x).value)].run == x.boundRun
                && u.evidence == t.evidence + [NewEvidence(t, x, SelectCall(t, x).value)])
  {
    if BindingHolds(t, x) {
      var c := SelectCall(t, x).value;
      SelectedCall(t, x);
      var u := RegisterPoll(t, x, c);
      RegisterPollKeeps(t, x, c);
      RegisteringPollKeepsTheRest(t, x, c);
      RegisterProcessKeeps(u, x, c);
      RegisteringProcessKeepsTheRest(u, x, c);
      var v := RegisterProcess(u, x, c);
      if v.Some? {
        SettleAppends(v.value, x, c);
        hide Inv;
        if Recording(v.value, x, c) {
          assert Recording(t, x, c);
        }
      }
    }
  }

  /** The same rows, each with the values of its admission. */
  ghost predicate SameAdmissions(t: Tables, u: Tables) {
    u.calls.Keys == t.calls.Keys && RowsGrow(t, u)
  }

  /** No row is removed, and each keeps the values of its admission and its evidence, if it has any. */
  ghost predicate RowsGrow(t: Tables, u: Tables) {
    forall k | k in t.calls :: k in u.calls && RowKept(t.calls[k], u.calls[k])
  }

  lemma RowKeepsAdmissions(t: Tables, u: Tables, k: (Identity, CallId), row: Call)
    requires k in t.calls && RowKept(t.calls[k], row) && (u.calls == t.calls || u.calls == t.calls[k := row])
    ensures SameAdmissions(t, u)
  {
  }

  lemma MarkKeepsAdmissions(t: Tables, x: CompletionEvent, c: CallId, digest: Digest)
    requires (x.identity, c) in t.calls && x.boundRun in t.assurance
    ensures SameAdmissions(t, MarkChanged(t, x, c, digest))
  {
    hide SameAdmissions;
    RowKeepsAdmissions(t, MarkChanged(t, x, c, digest), (x.identity, c), t.calls[(x.identity, c)].(after := Some(digest)));
  }

  lemma NoteKeepsAdmissions(t: Tables, x: CompletionEvent, c: CallId)
    requires (x.identity, c) in t.calls
    ensures SameAdmissions(t, NoteUnfinished(t, x, c).0)
  {
    hide SameAdmissions, CountersOf;
    var next := if x.running then Running else Unknown;
    RowKeepsAdmissions(t, NoteUnfinished(t, x, c).0, (x.identity, c), t.calls[(x.identity, c)].(completion := next));
  }

  lemma LinkKeepsAdmissions(t: Tables, x: CompletionEvent, c: CallId, e: nat)
    ensures SameAdmissions(t, t)
    ensures SameAdmissions(t, LinkPoll(t, x, c, e))
  {
    if (x.identity, x.call) in t.calls {
      var row := t.calls[(x.identity, x.call)].(evidence := Some(e), completion := Finished);
      RowKeepsAdmissions(t, LinkPoll(t, x, c, e), (x.identity, x.call), row);
    }
  }

  lemma RecordKeepsAdmissions(t: Tables, x: CompletionEvent, c: CallId, delivery: Option<string>, digest: Digest, exit: int)
    requires (x.identity, c) in t.calls
    ensures SameAdmissions(t, Record(t, x, c, delivery, digest, exit).0)
  {
    hide SameAdmissions, LinkPoll, Counted, Record;
    var v := Appended(t, x, c, delivery, digest, exit);
    RecordIsAppended(t, x, c, delivery, digest, exit);
    CountedKeeps(t, x.boundRun);
    RowKeepsAdmissions(t, v, (x.identity, c), RecordedRow(t, (x.identity, c)));
    LinkKeepsAdmissions(v, x, c, |t.evidence|);
    SameAdmissionsTrans(t, v, LinkPoll(v, x, c, |t.evidence|));
  }

  lemma SameAdmissionsTrans(t: Tables, u: Tables, v: Tables)
    requires SameAdmissions(t, u) && SameAdmissions(u, v)
    ensures SameAdmissions(t, v)
  {
  }

  lemma SettleKeepsAdmissions(t: Tables, x: CompletionEvent, c: CallId)
    requires (x.identity, c) in t.calls && x.boundRun in t.assurance
    ensures SameAdmissions(t, Settle(t, x, c).0)
  {
    hide Record, MarkChanged, NoteUnfinished, LinkPoll, ExitCode, SameAdmissions;
    var call := t.calls[(x.identity, c)];
    MarkKeepsAdmissions(t, x, c, if x.digest.Some? then x.digest.value else "");
    NoteKeepsAdmissions(t, x, c);
    LinkKeepsAdmissions(t, x, c, if call.evidence.Some? then call.evidence.value else 0);
    if x.digest.Some? && ExitCode(x).Some? {
      RecordKeepsAdmissions(t, x, c, call.delivery, x.digest.value, ExitCode(x).value);
    }
  }

  /** What was admitted stays, and a new row inherits an admission; it is not one. */
  ghost predicate AdmitsNothing(t: Tables, u: Tables) {
    RowsGrow(t, u) && forall k | k in u.calls && k !in t.calls :: u.calls[k].root != k.1
  }

  lemma AdmitsNothingThen(t: Tables, u: Tables, v: Tables)
    requires AdmitsNothing(t, u) && SameAdmissions(u, v)
    ensures AdmitsNothing(t, v)
  {
  }

  lemma PollInherits(t: Tables, x: CompletionEvent, c: CallId)
    requires Inv(t) && (x.identity, c) in t.calls
    ensures AdmitsNothing(t, RegisterPoll(t, x, c))
  {
    hide UsedReceipt, Inv;
    RowIsRooted(t, (x.identity, c));
  }

  lemma CompletionAdmitsNothing(t: Tables, x: CompletionEvent)
    requires Inv(t)
    ensures AdmitsNothing(t, Complete(t, x).0)
  {
    hide AdmitsNothing, BindingHolds, Inv, RegisterPoll, RegisterProcess, Settle, SelectCall;
    NothingAdmitted(t);
    if BindingHolds(t, x) {
      BindingSelects(t, x);
      var c := SelectCall(t, x).value;
      var u := RegisterPoll(t, x, c);
      RegisterPollKeeps(t, x, c);
      PollInherits(t, x, c);
      RegisterProcessKeeps(u, x, c);
      var v := RegisterProcess(u, x, c);
      if v.Some? {
        SettleKeepsAdmissions(v.value, x, c);
        AdmitsNothingThen(t, u, Settle(v.value, x, c).0);
      }
    }
  }

  lemma NothingAdmitted(t: Tables)
    ensures AdmitsNothing(t, t)
  {
  }

  lemma BindingSelects(t: Tables, x: CompletionEvent)
    requires BindingHolds(t, x)
    ensures SelectCall(t, x).Some? && (x.identity, SelectCall(t, x).value) in t.calls && x.boundRun in t.assurance
  {
  }

  lemma AdmissionKeepsRows(t: Tables, x: AdmissionEvent)
    ensures RowsGrow(t, Admit(t, x).0) && Admit(t, x).0.evidence == t.evidence
  {
  }

  /** The other transactions write neither call rows nor processes, nor observed evidence. */
  lemma OthersKeepRows(t: Tables, x: Transaction)
    requires !x.TComplete? && !x.TAdmit?
    ensures var u := Apply(t, x);
            && u.calls == t.calls && u.processes == t.processes && |u.evidence| >= |t.evidence|
            && (forall i: nat | i < |t.evidence| :: u.evidence[i] == t.evidence[i])
            && (forall i: nat | |t.evidence| <= i < |u.evidence| :: !u.evidence[i].provenance.ClientObserved?)
  {
    hide Complete, Admit, Submit, DenyTurn, Interrupt, Bind, OpenRun, SetRunStatus, Deliver;
    if !x.TReport? {
      OthersKeepRecords(t, x);
    }
  }

  /** No transaction takes an admission or recorded evidence away. */
  lemma RowsOnlyGrow(t: Tables, x: Transaction)
    requires Inv(t)
    ensures RowsGrow(t, Apply(t, x))
  {
    hide Inv, Complete, Admit;
    if x.TComplete? {
      CompletionAdmitsNothing(t, x.completion);
    } else if x.TAdmit? {
      AdmissionKeepsRows(t, x.admission);
    } else {
      OthersKeepRows(t, x);
    }
  }

  lemma {:induction false} RunGrowsRows(t: Tables, xs: seq<Transaction>)
    requires Inv(t)
    ensures Inv(Run(t, xs)) && RowsGrow(t, Run(t, xs))
    decreases |xs|
  {
    if xs != [] {
      hide Inv, Apply;
      ApplyKeeps(t, xs[0]);
      RowsOnlyGrow(t, xs[0]);
      RunGrowsRows(Apply(t, xs[0]), xs[1..]);
    }
  }

  /** Once a call has evidence, then after any further transactions no completion of it adds another row. */
  lemma CallRecordsOnce(t: Tables, xs: seq<Transaction>, x: CompletionEvent, c: CallId)
    requires Inv(t) && (x.identity, c) in t.calls && t.calls[(x.identity, c)].evidence.Some?
    requires SelectCall(Run(t, xs), x) == Some(c)
    ensures Complete(Run(t, xs), x).0.evidence == Run(t, xs).evidence
  {
    RunGrowsRows(t, xs);
    hide Inv, Complete, SelectCall, Run, NewEvidence;
    RecordedUnderBinding(Run(t, xs), x);
  }

  /** A call row that is its own root is written by an admission only, while its request was bound,
      unstopped and active on that run, with the delivery of the moment. */
  lemma AdmissionsAreBound(t: Tables, x: Transaction, k: (Identity, CallId))
    requires Inv(t) && k !in t.calls && k in Apply(t, x).calls && Apply(t, x).calls[k].root == k.1
    ensures x.TAdmit? && k == (x.admission.identity, x.admission.call)
    ensures var row := Apply(t, x).calls[k];
            && Admissible(t, k.0, row.run) && DeliveryOf(t, row.run) == row.delivery
            && row.input == x.admission.input && row.state == x.admission.state
            && row.run == x.admission.boundRun && row.delivery == x.admission.delivery && x.admission.reviewed
  {
    hide Inv, Complete, Admit;
    if x.TComplete? {
      CompletionAdmitsNothing(t, x.completion);
    } else if x.TAdmit? {
      AdmittedRow(t, x.admission, k);
    } else if !x.TReport? {
      OthersKeepRecords(t, x);
    }
  }

  lemma AdmittedRow(t: Tables, x: AdmissionEvent, k: (Identity, CallId))
    requires k !in t.calls && k in Admit(t, x).0.calls
    ensures k == (x.identity, x.call)
    ensures var row := Admit(t, x).0.calls[k];
            && Admissible(t, k.0, row.run) && DeliveryOf(t, row.run) == row.delivery && row.input == x.input && row.state == x.state
            && row.run == x.boundRun && row.delivery == x.delivery && x.reviewed
  {
  }
}
