/** A stopped turn stays stopped under every interleaving of hook transactions, even those whose handler
    read the request row before the stop. */
module HookStops {
  import opened Wrappers
  import opened HookTables
  import opened HookInvariants
  import opened HookSafety

  /** The rows of other identities are untouched, and only evidence of `id` may have been appended. */
  ghost predicate OnlyTouches(t: Tables, u: Tables, id: Identity) {
    && u.requests == t.requests
    && (forall k | k in t.calls && k.0 != id :: k in u.calls && u.calls[k] == t.calls[k])
    && (forall k | k in u.calls && k.0 != id :: k in t.calls)
    && (forall k | k in t.processes && k.0 != id :: k in u.processes && u.processes[k] == t.processes[k])
    && (forall k | k in u.processes && k.0 != id :: k in t.processes)
    && |t.evidence| <= |u.evidence|
    && (forall i: nat | i < |t.evidence| :: u.evidence[i] == t.evidence[i])
    && (forall i: nat | |t.evidence| <= i < |u.evidence| :: u.evidence[i].origin.0 == id)
  }

  lemma OnlyTouchesTrans(t: Tables, u: Tables, v: Tables, id: Identity)
    requires OnlyTouches(t, u, id) && OnlyTouches(u, v, id)
    ensures OnlyTouches(t, v, id)
  {
  }

  lemma NothingTouched(t: Tables, id: Identity)
    ensures OnlyTouches(t, t, id)
  {
  }

  /** Writing one call row of the identity, and no request, process or evidence row. */
  lemma OneRowTouches(t: Tables, u: Tables, id: Identity, c: CallId)
    requires (id, c) in u.calls && (u.calls == t.calls || u.calls == t.calls[(id, c) := u.calls[(id, c)]])
    requires u.requests == t.requests && u.processes == t.processes && u.evidence == t.evidence
    ensures OnlyTouches(t, u, id)
  {
  }

  lemma MarkTouches(t: Tables, x: CompletionEvent, c: CallId, digest: Digest)
    requires (x.identity, c) in t.calls && x.boundRun in t.assurance
    ensures OnlyTouches(t, MarkChanged(t, x, c, digest), x.identity)
  {
    hide OnlyTouches;
    OneRowTouches(t, MarkChanged(t, x, c, digest), x.identity, c);
  }

  lemma NoteTouches(t: Tables, x: CompletionEvent, c: CallId)
    requires (x.identity, c) in t.calls
    ensures OnlyTouches(t, NoteUnfinished(t, x, c).0, x.identity)
  {
    hide OnlyTouches, CountersOf, Sequenced;
    var call, n := t.calls[(x.identity, c)], CountersOf(t, x.boundRun);
    var n' := if !(call.completion.Admitted? || !x.running) then n
              else if x.running then n.(running := n.running + 1) else n.(unknownExit := n.unknownExit + 1);
    SequencedKeepsRecords(t.(counters := t.counters[x.boundRun := n']), x.boundRun);
    OneRowTouches(t, NoteUnfinished(t, x, c).0, x.identity, c);
  }

  lemma LinkTouches(t: Tables, x: CompletionEvent, c: CallId, e: nat)
    ensures OnlyTouches(t, LinkPoll(t, x, c, e), x.identity)
  {
  }

  /** Appending evidence that comes from this identity. */
  lemma AppendTouches(t: Tables, u: Tables, e: Evidence, id: Identity)
    requires u.requests == t.requests && u.calls == t.calls && u.processes == t.processes
    requires u.evidence == t.evidence + [e] && e.origin.0 == id
    ensures OnlyTouches(t, u, id)
  {
  }

  lemma RecordTouches(t: Tables, x: CompletionEvent, c: CallId, digest: Digest, exit: int)
    requires (x.identity, c) in t.calls && x.boundRun in t.assurance
    ensures OnlyTouches(t, Record(t, x, c, t.assurance[x.boundRun].delivery, digest, exit).0, x.identity)
  {
    hide OnlyTouches, Counted, LinkPoll, Record;
    var delivery := t.assurance[x.boundRun].delivery;
    var e, row := RecordedEvidence(t, x, c, delivery, digest, exit), RecordedRow(t, (x.identity, c));
    var counted, v := Counted(t, x.boundRun), Appended(t, x, c, delivery, digest, exit);
    var u := counted.(evidence := counted.evidence + [e]);
    RecordIsAppended(t, x, c, delivery, digest, exit);
    CountedKeeps(t, x.boundRun);
    AppendTouches(t, u, e, x.identity);
    OneRowTouches(u, v, x.identity, c);
    LinkTouches(v, x, c, |t.evidence|);
    OnlyTouchesTrans(t, u, v, x.identity);
    OnlyTouchesTrans(t, v, LinkPoll(v, x, c, |t.evidence|), x.identity);
  }

  lemma SettleTouches(t: Tables, x: CompletionEvent, c: CallId)
    requires (x.identity, c) in t.calls && x.boundRun in t.assurance
    ensures OnlyTouches(t, Settle(t, x, c).0, x.identity)
  {
    hide Record, MarkChanged, NoteUnfinished, LinkPoll, ExitCode, OnlyTouches;
    var call := t.calls[(x.identity, c)];
    NothingTouched(t, x.identity);
    if call.evidence.Some? {
      LinkTouches(t, x, c, call.evidence.value);
    }
    if x.digest.Some? {
      if x.digest.value != call.state {
        MarkTouches(t, x, c, x.digest.value);
      } else if ExitCode(x).None? {
        NoteTouches(t, x, c);
      } else {
        RecordTouches(t, x, c, x.digest.value, ExitCode(x).value);
      }
    }
  }

  lemma PutTouches(t: Tables, id: Identity, c: CallId, row: Call, session: string)
    ensures OnlyTouches(t, t, id)
    ensures OnlyTouches(t, PutCall(t, id, c, row), id)
    ensures PutCall(t, id, c, row).calls == t.calls[(id, c) := row] && PutCall(t, id, c, row).assurance == t.assurance
    ensures OnlyTouches(t, t.(processes := t.processes[(id, session) := c]), id)
  {
  }

  lemma PollTouches(t: Tables, x: CompletionEvent, c: CallId)
    requires (x.identity, c) in t.calls
    ensures var u := RegisterPoll(t, x, c);
            OnlyTouches(t, u, x.identity) && (x.identity, c) in u.calls && u.assurance == t.assurance
  {
    hide OnlyTouches, UsedReceipt, PutCall;
    var receipt := UsedReceipt(x);
    var call := t.calls[(x.identity, c)];
    var row := Call(call.run, call.delivery, x.input, call.state, None, None, Unknown, call.root);
    var bound := BindReceipt(t, x, c);
    NothingTouched(t, x.identity);
    PutTouches(t, x.identity, c, call, if receipt.Some? then receipt.value.process else "");
    PutTouches(bound, x.identity, x.call, row, "");
    OnlyTouchesTrans(t, bound, PutCall(bound, x.identity, x.call, row), x.identity);
  }

  lemma ProcessTouches(t: Tables, x: CompletionEvent, c: CallId)
    requires (x.identity, c) in t.calls
    ensures var v := RegisterProcess(t, x, c);
            v.Some? ==> OnlyTouches(t, v.value, x.identity) && v.value.calls == t.calls && v.value.assurance == t.assurance
  {
    hide OnlyTouches;
    hide ExitCode;
    PutTouches(t, x.identity, c, t.calls[(x.identity, c)], if x.session.Some? then x.session.value else "");
  }

  /** A completion touches the rows of its own identity only. */
  lemma CompleteTouches(t: Tables, x: CompletionEvent)
    ensures OnlyTouches(t, Complete(t, x).0, x.identity)
  {
    hide RegisterPoll, RegisterProcess, Settle, ExitCode;
    if BindingHolds(t, x) {
      var c := SelectCall(t, x).value;
      var u := RegisterPoll(t, x, c);
      PollTouches(t, x, c);
      ProcessTouches(u, x, c);
      var v := RegisterProcess(u, x, c);
      if v.Some? {
        SettleTouches(v.value, x, c);
        OnlyTouchesTrans(t, u, v.value, x.identity);
        OnlyTouchesTrans(t, v.value, Settle(v.value, x, c).0, x.identity);
      }
    }
  }

  /** Still stopped, and bound to the same run, or to none, as before. */
  ghost predicate RequestKept(t: Tables, u: Tables, id: Identity) {
    && id in t.requests && id in u.requests && u.requests[id].stopped && u.requests[id].run == t.requests[id].run
    && (u.requests[id].state == t.requests[id].state || u.requests[id].state.Cancelled?)
  }

  /** Still stopped, with the same calls and processes, and without new evidence of its own. */
  ghost predicate StaysStopped(t: Tables, u: Tables, id: Identity) {
    && RequestKept(t, u, id)
    && (forall c :: ((id, c) in u.calls <==> (id, c) in t.calls)
                    && ((id, c) in t.calls ==> u.calls[(id, c)] == t.calls[(id, c)]))
    && (forall s :: ((id, s) in u.processes <==> (id, s) in t.processes)
                    && ((id, s) in t.processes ==> u.processes[(id, s)] == t.processes[(id, s)]))
    && |t.evidence| <= |u.evidence|
    && (forall i: nat | i < |t.evidence| :: u.evidence[i] == t.evidence[i])
    && (forall i: nat | |t.evidence| <= i < |u.evidence| && u.evidence[i].provenance.ClientObserved? ::
          u.evidence[i].origin.0 != id)
  }

  lemma OthersStayStopped(t: Tables, u: Tables, id: Identity, other: Identity)
    requires OnlyTouches(t, u, other) && other != id && id in t.requests && t.requests[id].stopped
    ensures StaysStopped(t, u, id)
  {
  }

  lemma AdmitTouches(t: Tables, x: AdmissionEvent)
    ensures OnlyTouches(t, Admit(t, x).0, x.identity)
  {
    hide OnlyTouches, DeliveryOf, Admissible;
    NothingTouched(t, x.identity);
    if Admit(t, x).0 != t {
      OneRowTouches(t, Admit(t, x).0, x.identity, x.call);
    }
  }

  lemma NothingChanged(t: Tables, id: Identity)
    requires id in t.requests && t.requests[id].stopped
    ensures StaysStopped(t, t, id)
  {
  }

  lemma CompletionStaysStopped(t: Tables, x: CompletionEvent, id: Identity)
    requires id in t.requests && t.requests[id].stopped
    ensures StaysStopped(t, Complete(t, x).0, id)
  {
    hide StaysStopped, BindingHolds, SelectCall, Settle, RegisterPoll, RegisterProcess, OnlyTouches;
    if x.identity == id {
      NothingChanged(t, id);
    } else {
      CompleteTouches(t, x);
      OthersStayStopped(t, Complete(t, x).0, id, x.identity);
    }
  }

  lemma AdmissionStaysStopped(t: Tables, x: AdmissionEvent, id: Identity)
    requires id in t.requests && t.requests[id].stopped
    ensures StaysStopped(t, Admit(t, x).0, id)
  {
    hide StaysStopped, OnlyTouches, DeliveryOf;
    if x.identity == id {
      NothingChanged(t, id);
    } else {
      AdmitTouches(t, x);
      OthersStayStopped(t, Admit(t, x).0, id, x.identity);
    }
  }

  lemma DenialKeepsRequest(t: Tables, i: Identity, root: string, id: Identity)
    requires id in t.requests && t.requests[id].stopped
    ensures RequestKept(t, DenyTurn(t, i, root), id)
  {
    hide EndRun, SameRecords;
    var row := if i in t.requests then t.requests[i].(stopped := true) else Request(root, None, Pending, true);
    EndingKeepsRecords(t.(requests := t.requests[i := row]), row.run, Failed);
  }

  lemma InterruptionKeepsRequest(t: Tables, i: Identity, run: Option<RunId>, id: Identity)
    requires id in t.requests && t.requests[id].stopped
    ensures RequestKept(t, Interrupt(t, i, run), id)
  {
    hide EndRun, SameRecords;
    EndingKeepsRecords(t, run, Interrupted);
    if i in t.requests {
      EndingKeepsRecords(t.(requests := t.requests[i := t.requests[i].(state := Cancelled, stopped := true)]), run, Interrupted);
    }
  }

  lemma BindingKeepsRequest(t: Tables, i: Identity, run: RunId, prepared: bool, id: Identity)
    requires id in t.requests && t.requests[id].stopped
    ensures RequestKept(t, Bind(t, i, run, prepared), id)
  {
  }

  lemma OthersKeepRequest(t: Tables, x: Transaction, id: Identity)
    requires id in t.requests && t.requests[id].stopped && !x.TComplete? && !x.TAdmit?
    ensures RequestKept(t, Apply(t, x), id)
  {
    hide Complete, Admit, DenyTurn, Interrupt, Bind;
    match x
    case TDeny(i, root) => DenialKeepsRequest(t, i, root, id);
    case TInterrupt(i, run) => InterruptionKeepsRequest(t, i, run, id);
    case TBind(i, run, prepared) => BindingKeepsRequest(t, i, run, prepared, id);
    case _ =>
  }

  lemma OthersStaySame(t: Tables, x: Transaction, id: Identity)
    requires id in t.requests && t.requests[id].stopped && !x.TComplete? && !x.TAdmit?
    ensures StaysStopped(t, Apply(t, x), id)
  {
    hide Apply;
    OthersKeepRows(t, x);
    OthersKeepRequest(t, x, id);
  }

  /** One transaction of any handler, with any stale reads. */
  lemma StopIsAbsorbing(t: Tables, x: Transaction, id: Identity)
    requires id in t.requests && t.requests[id].stopped
    ensures StaysStopped(t, Apply(t, x), id)
  {
    hide StaysStopped, Complete, Admit, Submit, DenyTurn, Interrupt, Bind, Report;
    match x
    case TComplete(c) => CompletionStaysStopped(t, c, id);
    case TAdmit(a) => AdmissionStaysStopped(t, a, id);
    case _ => OthersStaySame(t, x, id);
  }

  lemma StaysStoppedTrans(t: Tables, u: Tables, v: Tables, id: Identity)
    requires StaysStopped(t, u, id) && StaysStopped(u, v, id)
    ensures StaysStopped(t, v, id)
  {
  }

  /** Over every continuation of a stopped turn. */
  lemma {:induction false} StoppedForever(t: Tables, xs: seq<Transaction>, id: Identity)
    requires id in t.requests && t.requests[id].stopped
    ensures StaysStopped(t, Run(t, xs), id)
    decreases |xs|
  {
    if xs != [] {
      var u := Apply(t, xs[0]);
      StopIsAbsorbing(t, xs[0], id);
      StoppedForever(u, xs[1..], id);
      StaysStoppedTrans(t, u, Run(t, xs), id);
    }
  }
}
