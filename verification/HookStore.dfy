/** The hook's tables as a mutable store, updated step by step; each transaction is proved against its
    function on table values. */
module HookStore {
  import opened Wrappers
  import opened HookTables

  class Store {
    var requests: map<Identity, Request>
    var calls: map<(Identity, CallId), Call>
    var processes: map<(Identity, string), CallId>
    var runs: map<RunId, RunStatus>
    var assurance: map<RunId, Assurance>
    var evidence: seq<Evidence>
    var counters: map<RunId, Counters>

    function Snapshot(): Tables
      reads this
    {
      Tables(requests, calls, processes, runs, assurance, evidence, counters)
    }

    constructor ()
      ensures Snapshot() == Empty
    {
      requests, calls, processes := map[], map[], map[];
      runs, assurance := map[], map[];
      evidence, counters := [], map[];
    }

    method EndActiveRun(run: Option<RunId>, status: RunStatus)
      modifies this`runs
      ensures Snapshot() == EndRun(old(Snapshot()), run, status)
    {
      if run.Some? && run.value in runs {
        var current := runs[run.value];
        if current == Active || current == Intake {
          runs := runs[run.value := status];
        }
      }
    }

    method Submit(id: Identity, root: string)
      modifies this
      ensures Snapshot() == HookTables.Submit(old(Snapshot()), id, root)
    {
      if id !in requests {
        requests := requests[id := Request(root, None, Pending, false)];
      }
    }

    /** Sets the durable stop flag, then fails the bound run. */
    method DenyTurn(id: Identity, root: string)
      modifies this
      ensures Snapshot() == HookTables.DenyTurn(old(Snapshot()), id, root)
    {
      if id in requests {
        requests := requests[id := requests[id].(stopped := true)];
      } else {
        requests := requests[id := Request(root, None, Pending, true)];
      }
      EndActiveRun(requests[id].run, Failed);
    }

    method Interrupt(id: Identity, staleRun: Option<RunId>)
      modifies this
      ensures Snapshot() == HookTables.Interrupt(old(Snapshot()), id, staleRun)
    {
      if id in requests {
        requests := requests[id := requests[id].(state := Cancelled, stopped := true)];
      }
      EndActiveRun(staleRun, Interrupted);
    }

    method Bind(id: Identity, run: RunId, prepared: bool) returns (updated: bool)
      modifies this
      ensures Snapshot() == HookTables.Bind(old(Snapshot()), id, run, prepared)
      ensures updated <==> id in old(requests) && !old(requests)[id].stopped
    {
      updated := id in requests && !requests[id].stopped;
      if updated {
        requests := requests[id := requests[id].(run := Some(run), state := if prepared then Bound else Pending)];
      }
    }

    method Admit(x: AdmissionEvent) returns (admission: Admission)
      modifies this
      ensures (Snapshot(), admission) == HookTables.Admit(old(Snapshot()), x)
    {
      if x.identity !in requests {
        return Terminal;
      }
      var current := requests[x.identity];
      if current.stopped || current.state != Bound || current.run != Some(x.boundRun)
        || x.boundRun !in runs || runs[x.boundRun] != Active {
        return Terminal;
      }
      var delivery := if x.boundRun in assurance then assurance[x.boundRun].delivery else None;
      if delivery != x.delivery {
        return Stale;
      }
      if !x.reviewed {
        return Review;
      }
      var key := (x.identity, x.call);
      if key in calls {
        return if calls[key].input == x.input then Accepted else CallConflict;
      }
      if x.boundRun in assurance && assurance[x.boundRun].observed == None {
        assurance := assurance[x.boundRun := assurance[x.boundRun].(observed := Some(x.state))];
      }
      calls := calls[key := Call(x.boundRun, x.delivery, x.input, x.state, None, None, Admitted, x.call)];
      return Accepted;
    }

    // The completion transaction.

    /** The call that the event completes, or none when its authority cannot be established. */
    method FindCall(x: CompletionEvent) returns (call: Option<CallId>)
      ensures call == SelectCall(Snapshot(), x)
    {
      if !x.tool.WriteStdin? || x.tool.session == None {
        return if (x.identity, x.call) in calls then Some(x.call) else None;
      }
      var receipt := UsedReceipt(x);
      var key := (x.identity, x.tool.session.value);
      call := None;
      if key in processes {
        call := Some(processes[key]);
      }
      if call == None && receipt.Some? && (x.identity, receipt.value.call) in calls {
        call := Some(receipt.value.call);
      }
      if call.Some? && (x.identity, call.value) !in calls {
        call := None;
      }
      if receipt.Some? && call != Some(receipt.value.call) {
        call := None;
      }
    }

    method CheckBinding(x: CompletionEvent) returns (call: Option<CallId>)
      ensures call.Some? <==> BindingHolds(Snapshot(), x)
      ensures call.Some? ==> call == SelectCall(Snapshot(), x)
    {
      if x.identity !in requests {
        return None;
      }
      var current := requests[x.identity];
      if current.stopped || current.run != Some(x.boundRun) || current.state != Bound {
        return None;
      }
      var own := (x.identity, x.call);
      if own in calls && (calls[own].run != x.boundRun || calls[own].input != x.input) {
        return None;
      }
      call := FindCall(x);
      if call.Some? && calls[(x.identity, call.value)].run != x.boundRun {
        return None;
      }
      if x.boundRun !in runs || runs[x.boundRun] != Active
        || x.boundRun !in assurance || assurance[x.boundRun].root != x.root {
        return None;
      }
    }

    method StoreBindings(x: CompletionEvent, c: CallId) returns (ok: bool)
      requires (x.identity, c) in calls
      modifies this`processes, this`calls
      ensures ok <==> RegisterProcess(RegisterPoll(old(Snapshot()), x, c), x, c).Some?
      ensures ok ==> RegisterProcess(RegisterPoll(old(Snapshot()), x, c), x, c) == Some(Snapshot())
    {
      var receipt := UsedReceipt(x);
      if x.tool.WriteStdin? && receipt.Some? && (x.identity, receipt.value.process) !in processes {
        processes := processes[(x.identity, receipt.value.process) := c];
      }
      if (x.identity, x.call) !in calls {
        var call := calls[(x.identity, c)];
        calls := calls[(x.identity, x.call) :=
          Call(call.run, call.delivery, x.input, call.state, None, None, Unknown, call.root)];
      }
      assert Snapshot() == RegisterPoll(old(Snapshot()), x, c);
      ok := true;
      if ExitCode(x) == None && x.tool.Shell? && x.session.Some? {
        var session := x.session.value;
        if |session| == 0 || |session| > 128 {
          return false;
        }
        if (x.identity, session) in processes {
          return processes[(x.identity, session)] == c;
        }
        processes := processes[(x.identity, session) := c];
      }
    }

    method Advance(run: RunId)
      modifies this`assurance
      ensures Snapshot() == Sequenced(old(Snapshot()), run)
    {
      if run in assurance {
        assurance := assurance[run := assurance[run].(sequence := assurance[run].sequence + 1)];
      }
    }

    method NoteChange(x: CompletionEvent, c: CallId, digest: Digest)
      requires (x.identity, c) in calls && x.boundRun in assurance
      modifies this
      ensures Snapshot() == MarkChanged(old(Snapshot()), x, c, digest)
    {
      var call := calls[(x.identity, c)];
      if call.after.None? {
        var a := assurance[x.boundRun];
        if a.observed != Some(digest) {
          assurance := assurance[x.boundRun := a.(changed := true, observed := Some(digest), revision := a.revision + 1)];
        }
        Advance(x.boundRun);
        calls := calls[(x.identity, c) := call.(after := Some(digest))];
      }
    }

    method NoteWithoutExit(x: CompletionEvent, c: CallId) returns (reply: Reply)
      requires (x.identity, c) in calls
      modifies this
      ensures (Snapshot(), reply) == NoteUnfinished(old(Snapshot()), x, c)
    {
      var call := calls[(x.identity, c)];
      var next := if x.running then Running else Unknown;
      if call.completion == next || (call.completion == Unknown && x.running) {
        return Nothing;
      }
      var n := if x.boundRun in counters then counters[x.boundRun] else Counters(0, 0, 0);
      var counts := call.completion == Admitted || next == Unknown;
      if counts {
        n := if x.running then n.(running := n.running + 1) else n.(unknownExit := n.unknownExit + 1);
      }
      counters := counters[x.boundRun := n];
      if counts {
        Advance(x.boundRun);
      }
      calls := calls[(x.identity, c) := call.(completion := next)];
      return if x.running then StillRunning else Nothing;
    }

    method LinkPollRow(x: CompletionEvent, c: CallId, e: nat)
      modifies this`calls
      ensures Snapshot() == LinkPoll(old(Snapshot()), x, c, e)
    {
      var own := (x.identity, x.call);
      if c != x.call && own in calls {
        calls := calls[own := calls[own].(evidence := Some(e), completion := Finished)];
      }
    }

    method RecordEvidence(x: CompletionEvent, c: CallId, delivery: Option<string>, digest: Digest, exit: int)
      returns (reply: Reply)
      requires (x.identity, c) in calls
      modifies this
      ensures (Snapshot(), reply) == Record(old(Snapshot()), x, c, delivery, digest, exit)
    {
      var call := calls[(x.identity, c)];
      var id := |evidence|;
      evidence := evidence + [Evidence(x.boundRun, delivery, x.root, call.input, digest,
                                       if exit == 0 then Passed else NotPassed, Some(exit), ClientObserved, (x.identity, c))];
      var n := if x.boundRun in counters then counters[x.boundRun] else Counters(0, 0, 0);
      counters := counters[x.boundRun := n.(structuredExit := n.structuredExit + 1)];
      Advance(x.boundRun);
      calls := calls[(x.identity, c) := call.(evidence := Some(id), completion := Finished)];
      LinkPollRow(x, c, id);
      return Recorded(id);
    }

    method SettleCompletion(x: CompletionEvent, c: CallId) returns (reply: Reply)
      requires (x.identity, c) in calls && x.boundRun in assurance
      modifies this
      ensures (Snapshot(), reply) == Settle(old(Snapshot()), x, c)
    {
      var call := calls[(x.identity, c)];
      var delivery := assurance[x.boundRun].delivery;
      if call.delivery != delivery {
        return DeliveryChanged;
      }
      if call.evidence.Some? {
        var e := call.evidence.value;
        if !(e < |evidence| && evidence[e].outcome == Unclear) {
          LinkPollRow(x, c, e);
          return AlreadyRecorded(e);
        }
      }
      if x.digest == None {
        return Refused;
      }
      if x.digest.value != call.state {
        NoteChange(x, c, x.digest.value);
        return StateChanged;
      }
      if !x.tool.Shell? && !(x.tool.WriteStdin? && c != x.call) {
        return Nothing;
      }
      var exit := ExitCode(x);
      if exit == None {
        reply := NoteWithoutExit(x, c);
      } else {
        reply := RecordEvidence(x, c, delivery, x.digest.value, exit.value);
      }
    }

    /** One immediate transaction: a refusal rolls every write back. */
    method Complete(x: CompletionEvent) returns (reply: Reply)
      modifies this
      ensures (Snapshot(), reply) == HookTables.Complete(old(Snapshot()), x)
    {
      if x.identity in requests && requests[x.identity].stopped {
        return StopTurn;
      }
      var call := CheckBinding(x);
      if call == None {
        return Refused;
      }
      var before := Snapshot();
      var ok := StoreBindings(x, call.value);
      reply := Refused;
      if ok {
        reply := SettleCompletion(x, call.value);
      }
      if reply == Refused {
        Restore(before);
      }
    }

    method Restore(t: Tables)
      modifies this
      ensures Snapshot() == t
    {
      requests, calls, processes, runs := t.requests, t.calls, t.processes, t.runs;
      assurance, evidence, counters := t.assurance, t.evidence, t.counters;
    }
  }
}
