/** What a completion answers and stores, case by case, and what admissions, denials, interruptions and bindings change. */
module HookOutcomes {
  import opened Wrappers
  import opened HookTables
  import opened HookInvariants
  import opened HookSafety
  import opened HookStops

  // Exit codes.

  /** The response is a finished, undisturbed, structured result with this exit code. */
  ghost predicate CleanExit(r: Response, exit: int) {
    && r.Structured? && r.exitCode == SafeInteger(exit)
    && !r.isError && !r.timedOut && !r.interrupted
    && r.session.Absent? && r.signal.Absent? && r.error.Absent?
    && (r.status.None? || r.status.value == "completed" || r.status.value == "finished")
  }

  /** A host receipt counts only beside a response that has no clean exit of its own. */
  ghost predicate Receipted(x: CompletionEvent, receipt: Receipt) {
    x.hostReceipt == Some(receipt) && forall exit :: !CleanExit(x.response, exit)
  }

  ghost predicate Exits(x: CompletionEvent, exit: int) {
    CleanExit(x.response, exit) || exists receipt: Receipt :: Receipted(x, receipt) && receipt.exit == exit
  }

  lemma ReceiptIsUsed(x: CompletionEvent)
    ensures forall receipt :: UsedReceipt(x) == Some(receipt) <==> Receipted(x, receipt)
  {
    if ObservedExitCode(x.response).Some? {
      assert CleanExit(x.response, ObservedExitCode(x.response).value);
    }
  }

  /** The exit code of a completion is known exactly in these two shapes. */
  lemma ExitIsKnown(x: CompletionEvent)
    ensures forall exit :: ExitCode(x) == Some(exit) <==> Exits(x, exit)
    ensures ExitCode(x).None? <==> forall exit :: !Exits(x, exit)
  {
    if ObservedExitCode(x.response).Some? {
      assert CleanExit(x.response, ObservedExitCode(x.response).value);
    } else if x.hostReceipt.Some? {
      assert Receipted(x, x.hostReceipt.value);
    }
  }

  // Which call a completion may act on.

  /** The event names call `c`: as its own, as the process that it polls, or through a receipt for a process not yet bound. */
  ghost predicate Addresses(t: Tables, x: CompletionEvent, c: CallId) {
    if x.tool.WriteStdin? && x.tool.session.Some? then
      && (forall receipt :: Receipted(x, receipt) ==> receipt.call == c)
      && (if (x.identity, x.tool.session.value) in t.processes then t.processes[(x.identity, x.tool.session.value)] == c
          else exists receipt :: Receipted(x, receipt))
    else c == x.call
  }

  /** The request is bound to the event's run, unstopped, and the run is active. */
  ghost predicate Live(t: Tables, id: Identity, run: RunId) {
    && id in t.requests && !t.requests[id].stopped && t.requests[id].state == Bound && t.requests[id].run == Some(run)
    && run in t.runs && t.runs[run] == Active
  }

  /** The event may complete call `c`: a live request, its repository, an unchanged row of its own, and a row of `c` on this run. */
  ghost predicate Completes(t: Tables, x: CompletionEvent, c: CallId) {
    && Live(t, x.identity, x.boundRun)
    && x.boundRun in t.assurance && t.assurance[x.boundRun].root == x.root
    && ((x.identity, x.call) in t.calls ==>
          t.calls[(x.identity, x.call)].run == x.boundRun && t.calls[(x.identity, x.call)].input == x.input)
    && Addresses(t, x, c) && (x.identity, c) in t.calls && t.calls[(x.identity, c)].run == x.boundRun
  }

  lemma AddressedIsSelected(t: Tables, x: CompletionEvent, c: CallId)
    ensures SelectCall(t, x) == Some(c) <==> Addresses(t, x, c) && (x.identity, c) in t.calls
  {
    ReceiptIsUsed(x);
  }

  lemma CompletesIsBinding(t: Tables, x: CompletionEvent, c: CallId)
    ensures Completes(t, x, c) <==> BindingHolds(t, x) && SelectCall(t, x) == Some(c)
  {
    AddressedIsSelected(t, x, c);
    hide Addresses, SelectCall;
  }

  /** Without such a call a completion is refused, or stops a stopped turn, and stores nothing. */
  lemma UnboundIsRefused(t: Tables, x: CompletionEvent)
    requires forall c :: !Completes(t, x, c)
    ensures Complete(t, x) == (t, if x.identity in t.requests && t.requests[x.identity].stopped then StopTurn else Refused)
  {
    if BindingHolds(t, x) {
      CompletesIsBinding(t, x, SelectCall(t, x).value);
    }
  }

  lemma CompletesFacts(t: Tables, x: CompletionEvent, c: CallId)
    requires Completes(t, x, c)
    ensures (x.identity, c) in t.calls && x.boundRun in t.assurance
  {
  }

  // Rows that every completion stores first.

  /** The process identifier of an unfinished command can be stored: it is not empty, not overlong and not of another call. */
  ghost predicate SessionUsable(t: Tables, x: CompletionEvent, c: CallId) {
    x.tool.Shell? && x.session.Some? && (forall exit :: !Exits(x, exit)) ==>
      && 1 <= |x.session.value| <= 128
      && ((x.identity, x.session.value) in t.processes ==> t.processes[(x.identity, x.session.value)] == c)
  }

  /** The call rows with the row of a poll that had none, which inherits the admission of its command. */
  function WithOwnRow(t: Tables, x: CompletionEvent, c: CallId): (rows: map<(Identity, CallId), Call>)
    requires (x.identity, c) in t.calls
    ensures (x.identity, c) in rows && rows[(x.identity, c)] == t.calls[(x.identity, c)]
    ensures rows.Keys == t.calls.Keys + {(x.identity, x.call)}
    ensures forall k | k in t.calls :: rows[k] == t.calls[k]
  {
    if (x.identity, x.call) in t.calls then t.calls
    else
      var row := t.calls[(x.identity, c)];
      t.calls[(x.identity, x.call) := Call(row.run, row.delivery, x.input, row.state, None, None, Unknown, row.root)]
  }

  /** Only call rows and processes may differ. */
  ghost predicate SameOutside(t: Tables, u: Tables) {
    && u.requests == t.requests && u.runs == t.runs && u.assurance == t.assurance
    && u.evidence == t.evidence && u.counters == t.counters
  }

  /** A process stays bound to its command. */
  ghost predicate ProcessesKept(t: Tables, u: Tables) {
    forall p | p in t.processes :: p in u.processes && u.processes[p] == t.processes[p]
  }

  /** The event binds this process: a receipt reports it for a poll, or an unfinished command names it. */
  ghost predicate Names(x: CompletionEvent, session: string) {
    || (x.tool.WriteStdin? && exists receipt: Receipt :: Receipted(x, receipt) && receipt.process == session)
    || (x.tool.Shell? && x.session == Some(session) && forall exit :: !Exits(x, exit))
  }

  /** The processes that the event names and that were not bound are now bound to the call; all others are as they were. */
  ghost predicate ProcessesBound(t: Tables, u: Tables, x: CompletionEvent, c: CallId) {
    forall p :: && (p in u.processes <==> p in t.processes || (p.0 == x.identity && Names(x, p.1)))
                && (p in u.processes ==> u.processes[p] == if p in t.processes then t.processes[p] else c)
  }

  lemma PollIsStored(t: Tables, x: CompletionEvent, c: CallId)
    requires (x.identity, c) in t.calls
    ensures var u := RegisterPoll(t, x, c);
            && SameOutside(t, u) && u.calls == WithOwnRow(t, x, c)
            && (if x.tool.Shell? then u.processes == t.processes else ProcessesBound(t, u, x, c))
  {
    hide BindReceipt, ProcessesBound;
    ReceiptIsBound(t, x, c);
    SameProcesses(t, BindReceipt(t, x, c), RegisterPoll(t, x, c), x, c);
  }

  lemma SameProcesses(t: Tables, u: Tables, v: Tables, x: CompletionEvent, c: CallId)
    requires v.processes == u.processes
    ensures ProcessesBound(t, u, x, c) <==> ProcessesBound(t, v, x, c)
  {
    hide Names;
  }

  lemma ReceiptIsBound(t: Tables, x: CompletionEvent, c: CallId)
    ensures var u := BindReceipt(t, x, c);
            && SameOutside(t, u) && u.calls == t.calls
            && (if x.tool.Shell? then u.processes == t.processes else ProcessesBound(t, u, x, c))
  {
    hide UsedReceipt, Receipted;
    ReceiptIsUsed(x);
  }

  lemma ProcessIsStored(t: Tables, x: CompletionEvent, c: CallId)
    ensures RegisterProcess(t, x, c).Some? <==> SessionUsable(t, x, c)
    ensures RegisterProcess(t, x, c).Some? ==>
              var u := RegisterProcess(t, x, c).value;
              && SameOutside(t, u) && u.calls == t.calls
              && (if x.tool.Shell? then ProcessesBound(t, u, x, c) else u.processes == t.processes)
  {
    ExitIsKnown(x);
    hide ExitCode, Exits, ProcessesBound;
    if x.tool.Shell? && RegisterProcess(t, x, c).Some? {
      ShellIsBound(t, x, c);
    }
  }

  lemma ShellIsBound(t: Tables, x: CompletionEvent, c: CallId)
    requires x.tool.Shell? && RegisterProcess(t, x, c).Some?
    ensures ProcessesBound(t, RegisterProcess(t, x, c).value, x, c)
  {
    NamedByShell(x);
    hide Names, ExitCode;
  }

  lemma NamedByShell(x: CompletionEvent)
    requires x.tool.Shell?
    ensures forall session :: Names(x, session) <==> ExitCode(x).None? && x.session == Some(session)
  {
    ExitIsKnown(x);
    hide ExitCode, Exits;
  }

  /** The tables in which a completion settles, once its bindings are stored. */
  lemma Settles(t: Tables, x: CompletionEvent, c: CallId) returns (v: Tables)
    requires Completes(t, x, c) && SessionUsable(t, x, c)
    ensures SameOutside(t, v) && v.calls == WithOwnRow(t, x, c)
    ensures Complete(t, x) == if Settle(v, x, c).1.Refused? then (t, Refused) else Settle(v, x, c)
    ensures ProcessesBound(t, v, x, c)
  {
    CompletesIsBinding(t, x, c);
    var u := RegisterPoll(t, x, c);
    PollIsStored(t, x, c);
    ProcessIsStored(u, x, c);
    hide Settle, RegisterPoll, BindingHolds, SelectCall, Exits;
    v := RegisterProcess(u, x, c).value;
  }

  /** A process identifier that is malformed, or belongs to another call, refuses the completion. */
  lemma UnusableSessionIsRefused(t: Tables, x: CompletionEvent, c: CallId)
    requires Completes(t, x, c) && !SessionUsable(t, x, c)
    ensures Complete(t, x) == (t, Refused)
  {
    CompletesIsBinding(t, x, c);
    PollIsStored(t, x, c);
    ProcessIsStored(RegisterPoll(t, x, c), x, c);
    hide Settle, RegisterPoll, BindingHolds, SelectCall, Exits;
  }

  /** The branch that settling takes for a call without evidence, at a current delivery and a readable state. */
  lemma SettlesBy(v: Tables, x: CompletionEvent, c: CallId)
    requires (x.identity, c) in v.calls && x.boundRun in v.assurance
    requires v.calls[(x.identity, c)].delivery == v.assurance[x.boundRun].delivery
    requires v.calls[(x.identity, c)].evidence.None? && x.digest.Some?
    ensures var row := v.calls[(x.identity, c)];
            Settle(v, x, c) ==
              if x.digest.value != row.state then (MarkChanged(v, x, c, x.digest.value), StateChanged)
              else if !x.tool.Shell? && !(x.tool.WriteStdin? && c != x.call) then (v, Nothing)
              else if ExitCode(x).None? then NoteUnfinished(v, x, c)
              else Record(v, x, c, row.delivery, row.state, ExitCode(x).value)
  {
    hide MarkChanged, NoteUnfinished, Record, ExitCode;
  }

  lemma MarkedTables(v: Tables, x: CompletionEvent, c: CallId, digest: Digest)
    requires (x.identity, c) in v.calls && x.boundRun in v.assurance
    ensures var u, a, row := MarkChanged(v, x, c, digest), v.assurance[x.boundRun], v.calls[(x.identity, c)];
            && u.evidence == v.evidence && u.requests == v.requests && u.runs == v.runs
            && u.calls == v.calls[(x.identity, c) := row.(after := if row.after.Some? then row.after else Some(digest))]
            && u.assurance == v.assurance[x.boundRun :=
                 if row.after.Some? then a
                 else if a.observed == Some(digest) then a.(sequence := a.sequence + 1)
                 else a.(changed := true, observed := Some(digest), revision := a.revision + 1, sequence := a.sequence + 1)]
  {
  }

  lemma RecordedTables(v: Tables, x: CompletionEvent, c: CallId, delivery: Option<string>, digest: Digest, exit: int)
    requires (x.identity, c) in v.calls && (x.identity, x.call) in v.calls && x.boundRun in v.assurance
    ensures var (u, reply) := Record(v, x, c, delivery, digest, exit);
            var n, a, row, own := |v.evidence|, v.assurance[x.boundRun], v.calls[(x.identity, c)], v.calls[(x.identity, x.call)];
            var observed := if x.boundRun in v.counters then v.counters[x.boundRun] else Counters(0, 0, 0);
            && reply == Recorded(n) && u.requests == v.requests && u.runs == v.runs
            && u.evidence == v.evidence + [Evidence(x.boundRun, delivery, x.root, row.input, digest,
                                                    if exit == 0 then Passed else NotPassed, Some(exit), ClientObserved,
                                                    (x.identity, c))]
            && u.calls == v.calls[(x.identity, c) := row.(evidence := Some(n), completion := Finished)]
                                 [(x.identity, x.call) := own.(evidence := Some(n), completion := Finished)]
            && u.assurance == v.assurance[x.boundRun := a.(sequence := a.sequence + 1)]
            && u.counters == v.counters[x.boundRun := observed.(structuredExit := observed.structuredExit + 1)]
  {
  }

  lemma NotedTables(v: Tables, x: CompletionEvent, c: CallId)
    requires (x.identity, c) in v.calls && x.boundRun in v.assurance
    ensures var (u, reply) := NoteUnfinished(v, x, c);
            var row, a := v.calls[(x.identity, c)], v.assurance[x.boundRun];
            var observed := if x.boundRun in v.counters then v.counters[x.boundRun] else Counters(0, 0, 0);
            var again := row.completion == (if x.running then Running else Unknown) || (row.completion.Unknown? && x.running);
            var counted := !again && (row.completion.Admitted? || !x.running);
            && reply == (if !again && x.running then StillRunning else Nothing)
            && u.evidence == v.evidence && u.requests == v.requests && u.runs == v.runs && u.processes == v.processes
            && u.calls == v.calls[(x.identity, c) := if again then row else row.(completion := if x.running then Running else Unknown)]
            && (again ==> u.counters == v.counters && u.assurance == v.assurance)
            && (!again ==> u.counters == v.counters[x.boundRun :=
                 if !counted then observed
                 else if x.running then observed.(running := observed.running + 1)
                 else observed.(unknownExit := observed.unknownExit + 1)])
            && (!again ==> u.assurance == if counted then v.assurance[x.boundRun := a.(sequence := a.sequence + 1)] else v.assurance)
  {
  }

  // The cases, in the order in which they are decided.

  /** The call was admitted for another delivery: nothing is verified. */
  lemma OldDeliveryIsNotVerified(t: Tables, x: CompletionEvent, c: CallId)
    requires Completes(t, x, c) && SessionUsable(t, x, c)
    requires t.calls[(x.identity, c)].delivery != t.assurance[x.boundRun].delivery
    ensures var (u, reply) := Complete(t, x);
            reply == DeliveryChanged && SameOutside(t, u) && u.calls == WithOwnRow(t, x, c)
  {
    var v := Settles(t, x, c);
  }

  /** The call has its evidence: the answer names it, a poll's own row is linked to it, and nothing is added. */
  lemma EvidenceIsAnswered(t: Tables, x: CompletionEvent, c: CallId)
    requires Inv(t) && Completes(t, x, c) && SessionUsable(t, x, c)
    requires t.calls[(x.identity, c)].delivery == t.assurance[x.boundRun].delivery && t.calls[(x.identity, c)].evidence.Some?
    ensures var (u, reply) := Complete(t, x);
            var e := t.calls[(x.identity, c)].evidence;
            && reply == AlreadyRecorded(e.value) && SameOutside(t, u) && u.calls.Keys == WithOwnRow(t, x, c).Keys
            && u.calls[(x.identity, x.call)].evidence == e
            && forall k | k in t.calls && k != (x.identity, x.call) :: u.calls[k] == t.calls[k]
  {
    hide Completes, Inv, SessionUsable, WithOwnRow, Observed;
    var v := Settles(t, x, c);
    CompletesFacts(t, x, c);
    LinkOf(t, (x.identity, c));
  }

  /** A repository state that cannot be read refuses the completion of a call without evidence. */
  lemma UnreadableStateIsRefused(t: Tables, x: CompletionEvent, c: CallId)
    requires Completes(t, x, c) && SessionUsable(t, x, c)
    requires t.calls[(x.identity, c)].delivery == t.assurance[x.boundRun].delivery
    requires t.calls[(x.identity, c)].evidence.None? && x.digest.None?
    ensures Complete(t, x) == (t, Refused)
  {
    var v := Settles(t, x, c);
  }

  /** The call may still get evidence at this delivery, and the state can be read. */
  ghost predicate Open(t: Tables, x: CompletionEvent, c: CallId) {
    && Completes(t, x, c) && SessionUsable(t, x, c) && x.digest.Some?
    && t.calls[(x.identity, c)].delivery == t.assurance[x.boundRun].delivery && t.calls[(x.identity, c)].evidence.None?
  }

  /** The repository is not in the state of the admission: the change is noted once per call, as changed, with a new
      revision when it had not been observed, and nothing is recorded. */
  lemma ChangeIsNoted(t: Tables, x: CompletionEvent, c: CallId)
    requires Open(t, x, c) && x.digest.value != t.calls[(x.identity, c)].state
    ensures var (u, reply) := Complete(t, x);
            var a, row, seen := t.assurance[x.boundRun], t.calls[(x.identity, c)], t.assurance[x.boundRun].observed == x.digest;
            && reply == StateChanged && u.evidence == t.evidence && u.requests == t.requests && u.runs == t.runs
            && u.calls == WithOwnRow(t, x, c)[(x.identity, c) := row.(after := if row.after.Some? then row.after else x.digest)]
            && u.assurance == t.assurance[x.boundRun :=
                 if row.after.Some? then a
                 else if seen then a.(sequence := a.sequence + 1)
                 else a.(changed := true, observed := x.digest, revision := a.revision + 1, sequence := a.sequence + 1)]
  {
    hide Completes, SessionUsable, WithOwnRow, Settle, MarkChanged;
    var v := Settles(t, x, c);
    CompletesFacts(t, x, c);
    SettlesBy(v, x, c);
    MarkedTables(v, x, c, x.digest.value);
  }

  /** The state is that of the admission, and the event is a command or the poll of one. */
  ghost predicate Verifiable(t: Tables, x: CompletionEvent, c: CallId) {
    Open(t, x, c) && x.digest.value == t.calls[(x.identity, c)].state && (x.tool.Shell? || (x.tool.WriteStdin? && c != x.call))
  }

  /** Other tools add nothing. */
  lemma OtherToolsAddNothing(t: Tables, x: CompletionEvent, c: CallId)
    requires Open(t, x, c) && x.digest.value == t.calls[(x.identity, c)].state && !Verifiable(t, x, c)
    ensures var (u, reply) := Complete(t, x);
            reply == Nothing && SameOutside(t, u) && u.calls == WithOwnRow(t, x, c)
  {
    var v := Settles(t, x, c);
  }

  /** A finished command is recorded: one row of evidence with the run, delivery, input and state of its admission, passed
      exactly on exit code 0; its own row and that of the poll are linked to it. */
  lemma CommandIsRecorded(t: Tables, x: CompletionEvent, c: CallId, exit: int)
    requires Verifiable(t, x, c) && Exits(x, exit)
    ensures var (u, reply) := Complete(t, x);
            var row, own, n := t.calls[(x.identity, c)], WithOwnRow(t, x, c)[(x.identity, x.call)], |t.evidence|;
            var a, observed := t.assurance[x.boundRun], if x.boundRun in t.counters then t.counters[x.boundRun] else Counters(0, 0, 0);
            && reply == Recorded(n)
            && u.evidence == t.evidence + [Evidence(x.boundRun, row.delivery, x.root, row.input, row.state,
                                                    if exit == 0 then Passed else NotPassed, Some(exit), ClientObserved,
                                                    (x.identity, c))]
            && u.calls == WithOwnRow(t, x, c)[(x.identity, c) := row.(evidence := Some(n), completion := Finished)]
                                             [(x.identity, x.call) := own.(evidence := Some(n), completion := Finished)]
            && u.requests == t.requests && u.runs == t.runs
            && u.assurance == t.assurance[x.boundRun := a.(sequence := a.sequence + 1)]
            && u.counters == t.counters[x.boundRun := observed.(structuredExit := observed.structuredExit + 1)]
  {
    hide Completes, SessionUsable, WithOwnRow, Settle, Record, Exits, ExitCode;
    var v := Settles(t, x, c);
    CompletesFacts(t, x, c);
    ExitIsKnown(x);
    SettlesBy(v, x, c);
    var row := t.calls[(x.identity, c)];
    RecordedTables(v, x, c, row.delivery, row.state, exit);
  }

  /** Without an exit code a command only moves its own mark and the counters: the first unfinished answer counts as running,
      an answer that is over without an exit code counts as unknown, and repetitions count nothing. */
  lemma UnfinishedIsCounted(t: Tables, x: CompletionEvent, c: CallId)
    requires Verifiable(t, x, c) && forall exit :: !Exits(x, exit)
    ensures var (u, reply) := Complete(t, x);
            var row, a := t.calls[(x.identity, c)], t.assurance[x.boundRun];
            var observed := if x.boundRun in t.counters then t.counters[x.boundRun] else Counters(0, 0, 0);
            var again := row.completion == (if x.running then Running else Unknown) || (row.completion.Unknown? && x.running);
            var counted := !again && (row.completion.Admitted? || !x.running);
            && reply == (if !again && x.running then StillRunning else Nothing)
            && u.evidence == t.evidence && u.requests == t.requests && u.runs == t.runs
            && u.calls == WithOwnRow(t, x, c)[(x.identity, c) :=
                 if again then row else row.(completion := if x.running then Running else Unknown)]
            && (again ==> u.counters == t.counters && u.assurance == t.assurance)
            && (!again ==> u.counters == t.counters[x.boundRun :=
                 if !counted then observed
                 else if x.running then observed.(running := observed.running + 1)
                 else observed.(unknownExit := observed.unknownExit + 1)])
            && (!again ==> u.assurance == if counted then t.assurance[x.boundRun := a.(sequence := a.sequence + 1)] else t.assurance)
  {
    hide Completes, SessionUsable, WithOwnRow, Settle, NoteUnfinished, Exits, ExitCode;
    var v := Settles(t, x, c);
    CompletesFacts(t, x, c);
    ExitIsKnown(x);
    SettlesBy(v, x, c);
    NotedTables(v, x, c);
  }

  // A command that outlives its first answer.

  lemma SettlingKeepsProcesses(v: Tables, x: CompletionEvent, c: CallId)
    requires (x.identity, c) in v.calls && x.boundRun in v.assurance
    ensures Settle(v, x, c).0.processes == v.processes
  {
    var delivery := v.assurance[x.boundRun].delivery;
    RecordingKeepsProcesses(v, x, c, delivery);
    NotingKeepsProcesses(v, x, c);
    hide ExitCode, MarkChanged, NoteUnfinished, Record;
  }

  lemma RecordingKeepsProcesses(v: Tables, x: CompletionEvent, c: CallId, delivery: Option<string>)
    requires (x.identity, c) in v.calls && x.boundRun in v.assurance
    ensures forall digest, exit :: Record(v, x, c, delivery, digest, exit).0.processes == v.processes
  {
  }

  lemma NotingKeepsProcesses(v: Tables, x: CompletionEvent, c: CallId)
    requires (x.identity, c) in v.calls && x.boundRun in v.assurance
    ensures forall digest :: MarkChanged(v, x, c, digest).processes == v.processes
    ensures NoteUnfinished(v, x, c).0.processes == v.processes
  {
  }

  lemma CompletionKeepsProcesses(t: Tables, x: CompletionEvent)
    ensures ProcessesKept(t, Complete(t, x).0)
  {
    if BindingHolds(t, x) {
      BindingSelects(t, x);
      hide BindingHolds, SelectCall, Settle, BindReceipt, ExitCode;
      var c := SelectCall(t, x).value;
      ReceiptIsBound(t, x, c);
      PollIsStored(t, x, c);
      var v := RegisterProcess(RegisterPoll(t, x, c), x, c);
      if v.Some? {
        SettlingKeepsProcesses(v.value, x, c);
      }
    }
  }

  lemma {:induction false} RunKeepsProcesses(t: Tables, xs: seq<Transaction>)
    ensures ProcessesKept(t, Run(t, xs))
    decreases |xs|
  {
    if xs != [] {
      var x := xs[0];
      assert ProcessesKept(t, Apply(t, x)) by {
        hide Complete, Admit;
        if x.TComplete? {
          CompletionKeepsProcesses(t, x.completion);
        } else if x.TAdmit? {
          AdmissionKeepsProcesses(t, x.admission);
        } else {
          OthersKeepRows(t, x);
        }
      }
      hide Apply;
      RunKeepsProcesses(Apply(t, x), xs[1..]);
    }
  }

  lemma AdmissionKeepsProcesses(t: Tables, x: AdmissionEvent)
    ensures Admit(t, x).0.processes == t.processes
  {
  }

  /** Every completion that is not refused binds exactly the processes that it names: an unfinished command its own, and a poll
      with a receipt the one that the receipt reports. */
  lemma ProcessIsRemembered(t: Tables, x: CompletionEvent, c: CallId)
    requires Completes(t, x, c) && SessionUsable(t, x, c) && !Complete(t, x).1.Refused?
    ensures ProcessesBound(t, Complete(t, x).0, x, c)
    ensures x.tool.Shell? && x.session.Some? && (forall exit :: !Exits(x, exit)) ==>
              var u := Complete(t, x).0;
              (x.identity, x.session.value) in u.processes && u.processes[(x.identity, x.session.value)] == c
  {
    hide Completes, Settle, Exits, Complete;
    var v := Settles(t, x, c);
    CompletesFacts(t, x, c);
    SettlingKeepsProcesses(v, x, c);
  }

  /** The event `y` polls the process of call `c` and finds it finished, with everything still as it was admitted. */
  ghost predicate Polls(u: Tables, y: CompletionEvent, c: CallId, session: string, exit: int) {
    && y.tool == WriteStdin(Some(session)) && y.call != c && Exits(y, exit)
    && (forall receipt :: Receipted(y, receipt) ==> receipt.call == c)
    && Live(u, y.identity, y.boundRun)
    && y.boundRun in u.assurance && u.assurance[y.boundRun].root == y.root
    && ((y.identity, y.call) in u.calls ==>
          u.calls[(y.identity, y.call)].run == y.boundRun && u.calls[(y.identity, y.call)].input == y.input)
  }

  /** Whatever happens in between, the exit code that a later poll brings is recorded for the command that was admitted, with
      that command's run, delivery, input and state, as long as these are still current. */
  lemma PollIsRecordedForItsCommand(t: Tables, x: CompletionEvent, c: CallId, xs: seq<Transaction>, y: CompletionEvent, exit: int)
    requires Inv(t) && Completes(t, x, c) && SessionUsable(t, x, c) && !Complete(t, x).1.Refused?
    requires x.tool.Shell? && x.session.Some? && forall exit :: !Exits(x, exit)
    requires var u, row := Run(Complete(t, x).0, xs), t.calls[(x.identity, c)];
             && Polls(u, y, c, x.session.value, exit) && y.identity == x.identity && y.boundRun == x.boundRun
             && ((x.identity, c) in u.calls ==> u.calls[(x.identity, c)].evidence.None?)
             && u.assurance[y.boundRun].delivery == row.delivery && y.digest == Some(row.state)
    ensures var u, row := Run(Complete(t, x).0, xs), t.calls[(x.identity, c)];
            Complete(u, y).0.evidence
            == u.evidence + [Evidence(x.boundRun, row.delivery, y.root, row.input, row.state,
                                      if exit == 0 then Passed else NotPassed, Some(exit), ClientObserved, (x.identity, c))]
  {
    hide Complete, SessionUsable, Exits, Run, Inv, RowsGrow;
    var u := Run(Complete(t, x).0, xs);
    ProcessIsRemembered(t, x, c);
    CompleteKeeps(t, x);
    RunKeepsProcesses(Complete(t, x).0, xs);
    RowStays(t, x, (x.identity, c), xs);
    assert Completes(u, y, c);
    assert SessionUsable(u, y, c) by { NotAShell(u, y, c); }
    CommandIsRecorded(u, y, c, exit);
  }

  lemma NotAShell(t: Tables, x: CompletionEvent, c: CallId)
    requires !x.tool.Shell?
    ensures SessionUsable(t, x, c)
  {
  }

  lemma RowStays(t: Tables, x: CompletionEvent, k: (Identity, CallId), xs: seq<Transaction>)
    requires Inv(t) && k in t.calls
    ensures var u := Run(Complete(t, x).0, xs); k in u.calls && RowKept(t.calls[k], u.calls[k])
  {
    hide Complete, Run, Inv;
    CompletionAdmitsNothing(t, x);
    CompleteKeeps(t, x);
    RunGrowsRows(Complete(t, x).0, xs);
  }

  // The other transactions of the hook.

  /** A tool call is admitted exactly when its request is live on the run that the handler read, the delivery and the memory
      review are current, and its identity is new or repeats the same input. */
  lemma AdmissionAnswers(t: Tables, x: AdmissionEvent)
    ensures var reply, key := Admit(t, x).1, (x.identity, x.call);
            var current := if x.boundRun in t.assurance then t.assurance[x.boundRun].delivery else None;
            && (reply.Terminal? <==> !Live(t, x.identity, x.boundRun))
            && (reply.Stale? <==> Live(t, x.identity, x.boundRun) && current != x.delivery)
            && (reply.Review? <==> Live(t, x.identity, x.boundRun) && current == x.delivery && !x.reviewed)
            && (reply.Accepted? <==> && Live(t, x.identity, x.boundRun) && current == x.delivery && x.reviewed
                                     && (key in t.calls ==> t.calls[key].input == x.input))
  {
  }

  /** The first admission of a call stores what it was admitted with, and the first observed state of the run. */
  lemma AdmissionIsStored(t: Tables, x: AdmissionEvent)
    ensures var (u, reply) := Admit(t, x);
            var key := (x.identity, x.call);
            && (reply.Accepted? && key !in t.calls ==>
                  u.calls == t.calls[key := Call(x.boundRun, x.delivery, x.input, x.state, None, None, Admitted, x.call)])
            && (!reply.Accepted? || key in t.calls ==> u == t)
            && u.requests == t.requests && u.runs == t.runs && u.processes == t.processes && u.evidence == t.evidence
            && u.assurance.Keys == t.assurance.Keys
            && forall run | run in t.assurance ::
                 u.assurance[run] == if u != t && run == x.boundRun && t.assurance[run].observed.None?
                                     then t.assurance[run].(observed := Some(x.state)) else t.assurance[run]
  {
  }

  /** What ending a run changes: the run itself, when it had not ended. */
  ghost predicate RunEnded(t: Tables, u: Tables, run: Option<RunId>, status: RunStatus) {
    && u.runs.Keys == t.runs.Keys
    && forall r | r in t.runs ::
         u.runs[r] == if run == Some(r) && (t.runs[r].Active? || t.runs[r].Intake?) then status else t.runs[r]
  }

  ghost predicate OtherRequestsKept(t: Tables, u: Tables, id: Identity) {
    && u.requests.Keys == t.requests.Keys + {id}
    && forall i | i in t.requests && i != id :: u.requests[i] == t.requests[i]
  }

  lemma EndingEnds(t: Tables, run: Option<RunId>, status: RunStatus)
    ensures RunEnded(t, EndRun(t, run, status), run, status) && SameRecords(t, EndRun(t, run, status))
    ensures EndRun(t, run, status).requests == t.requests
  {
  }

  lemma EndedAlike(t: Tables, u: Tables, v: Tables, run: Option<RunId>, status: RunStatus)
    requires t.runs == u.runs && RunEnded(u, v, run, status)
    ensures RunEnded(t, v, run, status)
  {
  }

  lemma DenialChanges(t: Tables, id: Identity, root: string, row: Request)
    requires row == if id in t.requests then t.requests[id].(stopped := true) else Request(root, None, Pending, true)
    ensures var u := DenyTurn(t, id, root);
            && u.requests == t.requests[id := row] && SameRecords(t, u) && RunEnded(t, u, row.run, Failed)
  {
    hide EndRun, RunEnded;
    var u := t.(requests := t.requests[id := row]);
    EndingEnds(u, row.run, Failed);
    EndedAlike(t, u, EndRun(u, row.run, Failed), row.run, Failed);
  }

  /** A denial stops the turn, whether or not its request had been seen, fails the run that it is bound to, and so closes the
      turn for good: it stays stopped, on that run, with no further call or evidence. */
  lemma DenialStops(t: Tables, id: Identity, root: string, xs: seq<Transaction>)
    ensures var u := DenyTurn(t, id, root);
            && id in u.requests && u.requests[id].stopped && OtherRequestsKept(t, u, id)
            && (id in t.requests ==> u.requests[id] == t.requests[id].(stopped := true))
            && (id !in t.requests ==> u.requests[id].run.None? && u.requests[id].root == root)
            && RunEnded(t, u, u.requests[id].run, Failed) && SameRecords(t, u)
            && StaysStopped(u, Run(u, xs), id)
  {
    hide StaysStopped, Run, EndRun, RunEnded;
    var row := if id in t.requests then t.requests[id].(stopped := true) else Request(root, None, Pending, true);
    DenialChanges(t, id, root, row);
    StoppedForever(DenyTurn(t, id, root), xs, id);
  }

  /** An interruption cancels and stops the turn and interrupts the run that its handler read; no later transaction of the turn
      changes that. */
  lemma InterruptionStops(t: Tables, id: Identity, run: Option<RunId>, xs: seq<Transaction>)
    requires id in t.requests
    ensures var u := Interrupt(t, id, run);
            && u.requests[id] == t.requests[id].(state := Cancelled, stopped := true) && OtherRequestsKept(t, u, id)
            && RunEnded(t, u, run, Interrupted) && SameRecords(t, u)
            && StaysStopped(u, Run(u, xs), id)
  {
    hide StaysStopped, Run, EndRun, RunEnded;
    var u := t.(requests := t.requests[id := t.requests[id].(state := Cancelled, stopped := true)]);
    EndingEnds(u, run, Interrupted);
    EndedAlike(t, u, Interrupt(t, id, run), run, Interrupted);
    StoppedForever(Interrupt(t, id, run), xs, id);
  }

  /** A preparation binds its run to a live turn, and opens it for work only when it was prepared. */
  lemma BindingOpens(t: Tables, id: Identity, run: RunId, prepared: bool)
    ensures var u := Bind(t, id, run, prepared);
            && u == t.(requests := u.requests)
            && (id !in t.requests || t.requests[id].stopped ==> u == t)
            && (id in t.requests && !t.requests[id].stopped ==>
                  && OtherRequestsKept(t, u, id) && u.requests[id].run == Some(run) && !u.requests[id].stopped
                  && u.requests[id].root == t.requests[id].root
                  && (run in t.runs && t.runs[run] == Active ==> (Live(u, id, run) <==> prepared)))
  {
  }

  /** A prompt opens a request that is neither bound nor stopped, and leaves one that exists alone. */
  lemma PromptOpens(t: Tables, id: Identity, root: string)
    ensures var u := Submit(t, id, root);
            && u == t.(requests := u.requests) && OtherRequestsKept(t, u, id)
            && u.requests[id] == if id in t.requests then t.requests[id] else Request(root, None, Pending, false)
  {
  }
}
