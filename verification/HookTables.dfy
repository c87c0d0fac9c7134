/** The tables behind the Codex hook and the transactions on them, as functions on values. A transaction
    carries what its handler read beforehand (the run of the request row, the delivery, digests), and
    those values may be arbitrarily stale. */
module HookTables {
  import opened Wrappers

  type Identity = string
  type CallId = string
  type RunId = string
  type Digest = string

  datatype RequestState = Pending | Bound | Cancelled

  datatype Request = Request(root: string, run: Option<RunId>, state: RequestState, stopped: bool)

  datatype RunStatus = Intake | Active | Completed | Failed | Abandoned | Interrupted

  datatype Completion = Admitted | Running | Unknown | Finished

  /** `root` is bookkeeping of the model: the call whose admission this row carries. It is the row's own
      call, except for the row of a poll that arrived without an admission of its own. */
  datatype Call = Call(
    run: RunId, delivery: Option<string>, input: Digest, state: Digest,
    evidence: Option<nat>, after: Option<Digest>, completion: Completion, root: CallId)

  datatype Assurance = Assurance(
    root: string, delivery: Option<string>, revision: nat, changed: bool, observed: Option<Digest>, sequence: nat)

  datatype Outcome = Passed | NotPassed | Skipped | Unclear

  datatype Provenance = ModelReported | ClientObserved

  /** `origin` is bookkeeping of the model: the call row that the evidence was recorded from. */
  datatype Evidence = Evidence(
    run: RunId, delivery: Option<string>, root: string, execution: Digest, state: Digest,
    outcome: Outcome, exit: Option<int>, provenance: Provenance, origin: (Identity, CallId))

  datatype Counters = Counters(unknownExit: nat, running: nat, structuredExit: nat)

  /** Evidence rows are identified by their position. */
  datatype Tables = Tables(
    requests: map<Identity, Request>,
    calls: map<(Identity, CallId), Call>,
    processes: map<(Identity, string), CallId>,
    runs: map<RunId, RunStatus>,
    assurance: map<RunId, Assurance>,
    evidence: seq<Evidence>,
    counters: map<RunId, Counters>)

  // Client results.

  datatype Field = Absent | SafeInteger(n: int) | OtherValue

  /** What the hook looks at in a tool response; plain text is never one. */
  datatype Response =
    | Text
    | Structured(isError: bool, session: Field, timedOut: bool, interrupted: bool, signal: Field,
             status: Option<string>, error: Field, exitCode: Field)

  /** An exit code counts only in a finished, undisturbed, structured response. */
  function ObservedExitCode(r: Response): Option<int> {
    if r.Text? then None
    else if r.isError || !r.session.Absent? || r.timedOut || r.interrupted || !r.signal.Absent?
            || (r.status.Some? && r.status.value !in {"completed", "finished"}) || !r.error.Absent? then None
    else if r.exitCode.SafeInteger? then Some(r.exitCode.n) else None
  }

  datatype Receipt = Receipt(call: CallId, process: string, exit: int)

  datatype Tool = Shell | WriteStdin(session: Option<string>) | OtherTool

  /** A PostToolUse event that reaches the completion transaction. `boundRun` is the run of the request
      row that the handler read earlier; `digest` is the repository state, when it can be read. */
  datatype CompletionEvent = CompletionEvent(
    identity: Identity, root: string, call: CallId, tool: Tool, input: Digest, boundRun: RunId,
    response: Response, hostReceipt: Option<Receipt>, session: Option<string>, running: bool,
    digest: Option<Digest>)

  function UsedReceipt(x: CompletionEvent): Option<Receipt> {
    if ObservedExitCode(x.response).Some? then None else x.hostReceipt
  }

  function ExitCode(x: CompletionEvent): Option<int> {
    if ObservedExitCode(x.response).Some? then ObservedExitCode(x.response)
    else if x.hostReceipt.Some? then Some(x.hostReceipt.value.exit) else None
  }

  datatype Reply =
    | StopTurn
    | Refused            // the transaction throws and leaves nothing behind
    | DeliveryChanged
    | AlreadyRecorded(known: nat)
    | StateChanged
    | Nothing
    | StillRunning
    | Recorded(evidence: nat)

  // Small table updates.

  function PutCall(t: Tables, id: Identity, c: CallId, row: Call): Tables {
    t.(calls := t.calls[(id, c) := row])
  }

  function CountersOf(t: Tables, run: RunId): Counters {
    if run in t.counters then t.counters[run] else Counters(0, 0, 0)
  }

  function Sequenced(t: Tables, run: RunId): Tables {
    if run in t.assurance then
      t.(assurance := t.assurance[run := t.assurance[run].(sequence := t.assurance[run].sequence + 1)])
    else t
  }

  function EndRun(t: Tables, run: Option<RunId>, status: RunStatus): Tables {
    if run.Some? && run.value in t.runs && t.runs[run.value] in {Active, Intake}
    then t.(runs := t.runs[run.value := status]) else t
  }

  // The transactions.

  /** A prompt or a subagent start opens the request row; an existing row keeps its binding and its stop. */
  function Submit(t: Tables, id: Identity, root: string): Tables {
    if id in t.requests then t else t.(requests := t.requests[id := Request(root, None, Pending, false)])
  }

  function DenyTurn(t: Tables, id: Identity, root: string): Tables {
    var row := if id in t.requests then t.requests[id].(stopped := true) else Request(root, None, Pending, true);
    EndRun(t.(requests := t.requests[id := row]), row.run, Failed)
  }

  function Interrupt(t: Tables, id: Identity, run: Option<RunId>): Tables {
    if id in t.requests
    then EndRun(t.(requests := t.requests[id := t.requests[id].(state := Cancelled, stopped := true)]), run, Interrupted)
    else EndRun(t, run, Interrupted)
  }

  /** The response of a preparation binds its run, unless the turn has been stopped meanwhile. */
  function Bind(t: Tables, id: Identity, run: RunId, prepared: bool): Tables {
    if id in t.requests && !t.requests[id].stopped
    then t.(requests := t.requests[id := t.requests[id].(run := Some(run), state := if prepared then Bound else Pending)])
    else t
  }

  datatype Admission = Terminal | Stale | Review | CallConflict | Accepted

  /** A PreToolUse event. `reviewed` says that no memory review is outstanding at the time of the transaction. */
  datatype AdmissionEvent = AdmissionEvent(
    identity: Identity, call: CallId, boundRun: RunId, delivery: Option<string>, input: Digest, state: Digest, reviewed: bool)

  function DeliveryOf(t: Tables, run: RunId): Option<string> {
    if run in t.assurance then t.assurance[run].delivery else None
  }

  predicate Admissible(t: Tables, id: Identity, run: RunId) {
    && id in t.requests && !t.requests[id].stopped && t.requests[id].state.Bound? && t.requests[id].run == Some(run)
    && run in t.runs && t.runs[run] == Active
  }

  function Admit(t: Tables, x: AdmissionEvent): (r: (Tables, Admission)) {
    if !Admissible(t, x.identity, x.boundRun) then (t, Terminal)
    else if DeliveryOf(t, x.boundRun) != x.delivery then (t, Stale)
    else if !x.reviewed then (t, Review)
    else if (x.identity, x.call) in t.calls then
      (t, if t.calls[(x.identity, x.call)].input == x.input then Accepted else CallConflict)
    else
      var observed :=
        if x.boundRun in t.assurance && t.assurance[x.boundRun].observed.None?
        then t.(assurance := t.assurance[x.boundRun := t.assurance[x.boundRun].(observed := Some(x.state))]) else t;
      (PutCall(observed, x.identity, x.call,
               Call(x.boundRun, x.delivery, x.input, x.state, None, None, Admitted, x.call)), Accepted)
  }

  // The completion transaction, in the order in which it works.

  /** The call that the event completes: its own admission, or for a poll the call that owns the process. */
  function SelectCall(t: Tables, x: CompletionEvent): Option<CallId> {
    match x.tool
    case WriteStdin(Some(session)) =>
      var receipt := UsedReceipt(x);
      var known :=
        if (x.identity, session) in t.processes then Some(t.processes[(x.identity, session)])
        else if receipt.Some? && (x.identity, receipt.value.call) in t.calls then Some(receipt.value.call) else None;
      if known.Some? && (x.identity, known.value) in t.calls && (receipt.Some? ==> known.value == receipt.value.call)
      then known else None
    case _ =>
      if (x.identity, x.call) in t.calls then Some(x.call) else None
  }

  predicate BindingHolds(t: Tables, x: CompletionEvent) {
    && x.identity in t.requests && !t.requests[x.identity].stopped
    && t.requests[x.identity].run == Some(x.boundRun) && t.requests[x.identity].state.Bound?
    && ((x.identity, x.call) in t.calls ==>
          t.calls[(x.identity, x.call)].run == x.boundRun && t.calls[(x.identity, x.call)].input == x.input)
    && SelectCall(t, x).Some?
    && t.calls[(x.identity, SelectCall(t, x).value)].run == x.boundRun
    && x.boundRun in t.runs && t.runs[x.boundRun] == Active
    && x.boundRun in t.assurance && t.assurance[x.boundRun].root == x.root
  }

  /** Bind the process named by a host receipt. */
  function BindReceipt(t: Tables, x: CompletionEvent, c: CallId): Tables {
    var receipt := UsedReceipt(x);
    if x.tool.WriteStdin? && receipt.Some? && (x.identity, receipt.value.process) !in t.processes
    then t.(processes := t.processes[(x.identity, receipt.value.process) := c]) else t
  }

  /** Bind the process, and give a poll its own row. */
  function RegisterPoll(t: Tables, x: CompletionEvent, c: CallId): Tables
    requires (x.identity, c) in t.calls
  {
    var bound := BindReceipt(t, x, c);
    if (x.identity, x.call) in t.calls then bound
    else
      var call := t.calls[(x.identity, c)];
      PutCall(bound, x.identity, x.call, Call(call.run, call.delivery, x.input, call.state, None, None, Unknown, call.root))
  }

  /** Remember the process of a command that has not exited; a process ID must not be reused. */
  function RegisterProcess(t: Tables, x: CompletionEvent, c: CallId): Option<Tables> {
    if ExitCode(x).None? && x.tool.Shell? && x.session.Some? then
      var key := (x.identity, x.session.value);
      if x.session.value == "" || |x.session.value| > 128 then None
      else if key !in t.processes then Some(t.(processes := t.processes[key := c]))
      else if t.processes[key] == c then Some(t) else None
    else Some(t)
  }

  function MarkChanged(t: Tables, x: CompletionEvent, c: CallId, digest: Digest): Tables
    requires (x.identity, c) in t.calls && x.boundRun in t.assurance
  {
    var call := t.calls[(x.identity, c)];
    if call.after.Some? then t
    else
      var a := t.assurance[x.boundRun];
      var a' := if a.observed != Some(digest)
                then a.(changed := true, observed := Some(digest), revision := a.revision + 1) else a;
      PutCall(Sequenced(t.(assurance := t.assurance[x.boundRun := a']), x.boundRun), x.identity, c, call.(after := Some(digest)))
  }

  /** A result without an exit code only moves the counters. */
  function NoteUnfinished(t: Tables, x: CompletionEvent, c: CallId): (Tables, Reply)
    requires (x.identity, c) in t.calls
  {
    var call := t.calls[(x.identity, c)];
    var next := if x.running then Running else Unknown;
    if call.completion == next || (call.completion.Unknown? && x.running) then (t, Nothing)
    else
      var n := CountersOf(t, x.boundRun);
      var counts := call.completion.Admitted? || next.Unknown?;
      var n' := if !counts then n else if x.running then n.(running := n.running + 1) else n.(unknownExit := n.unknownExit + 1);
      var u := t.(counters := t.counters[x.boundRun := n']);
      var v := if counts then Sequenced(u, x.boundRun) else u;
      (PutCall(v, x.identity, c, call.(completion := next)), if x.running then StillRunning else Nothing)
  }

  /** Link the poll's own row to evidence of the call it completed. */
  function LinkPoll(t: Tables, x: CompletionEvent, c: CallId, e: nat): Tables {
    if c != x.call && (x.identity, x.call) in t.calls
    then PutCall(t, x.identity, x.call, t.calls[(x.identity, x.call)].(evidence := Some(e), completion := Finished)) else t
  }

  function Record(t: Tables, x: CompletionEvent, c: CallId, delivery: Option<string>, digest: Digest, exit: int): (Tables, Reply)
    requires (x.identity, c) in t.calls
  {
    var call := t.calls[(x.identity, c)];
    var e := Evidence(x.boundRun, delivery, x.root, call.input, digest,
                      if exit == 0 then Passed else NotPassed, Some(exit), ClientObserved, (x.identity, c));
    var id := |t.evidence|;
    var n := CountersOf(t, x.boundRun);
    var u := t.(evidence := t.evidence + [e],
                counters := t.counters[x.boundRun := n.(structuredExit := n.structuredExit + 1)]);
    var v := PutCall(Sequenced(u, x.boundRun), x.identity, c, call.(evidence := Some(id), completion := Finished));
    (LinkPoll(v, x, c, id), Recorded(id))
  }

  /** Everything after the call has been found and its bindings stored. */
  function Settle(t: Tables, x: CompletionEvent, c: CallId): (Tables, Reply)
    requires (x.identity, c) in t.calls && x.boundRun in t.assurance
  {
    var call := t.calls[(x.identity, c)];
    var delivery := t.assurance[x.boundRun].delivery;
    if call.delivery != delivery then (t, DeliveryChanged)
    else if call.evidence.Some? && !(call.evidence.value < |t.evidence| && t.evidence[call.evidence.value].outcome.Unclear?)
    then (LinkPoll(t, x, c, call.evidence.value), AlreadyRecorded(call.evidence.value))
    else if x.digest.None? then (t, Refused)
    else if x.digest.value != call.state then (MarkChanged(t, x, c, x.digest.value), StateChanged)
    else if !x.tool.Shell? && !(x.tool.WriteStdin? && c != x.call) then (t, Nothing)
    else if ExitCode(x).None? then NoteUnfinished(t, x, c)
    else Record(t, x, c, delivery, x.digest.value, ExitCode(x).value)
  }

  /** A refused completion leaves the tables as they were. */
  function Complete(t: Tables, x: CompletionEvent): (Tables, Reply) {
    if x.identity in t.requests && t.requests[x.identity].stopped then (t, StopTurn)
    else if !BindingHolds(t, x) then (t, Refused)
    else
      var c := SelectCall(t, x).value;
      var registered := RegisterProcess(RegisterPoll(t, x, c), x, c);
      if registered.None? then (t, Refused)
      else
        var r := Settle(registered.value, x, c);
        if r.1.Refused? then (t, Refused) else r
  }

  // Other writers of the same tables.

  function OpenRun(t: Tables, run: RunId, status: RunStatus, root: string): Tables {
    if run in t.runs then t
    else t.(runs := t.runs[run := status],
            assurance := t.assurance[run := Assurance(root, None, 0, false, None, 0)])
  }

  function SetRunStatus(t: Tables, run: RunId, status: RunStatus): Tables {
    if run in t.runs then t.(runs := t.runs[run := status]) else t
  }

  function Deliver(t: Tables, run: RunId, delivery: string): Tables {
    if run in t.assurance && t.assurance[run].delivery != Some(delivery)
    then t.(assurance := t.assurance[run :=
           t.assurance[run].(delivery := Some(delivery), revision := t.assurance[run].revision + 1)])
    else t
  }

  /** Evidence that the model reports itself; it never comes from a call row. */
  function Report(t: Tables, e: Evidence): Tables {
    t.(evidence := t.evidence + [e.(provenance := ModelReported)])
  }

  datatype Transaction =
    | TSubmit(id: Identity, root: string)
    | TDeny(id: Identity, root: string)
    | TInterrupt(id: Identity, staleRun: Option<RunId>)
    | TBind(id: Identity, run: RunId, prepared: bool)
    | TAdmit(admission: AdmissionEvent)
    | TComplete(completion: CompletionEvent)
    | TOpenRun(run: RunId, status: RunStatus, root: string)
    | TSetStatus(run: RunId, status: RunStatus)
    | TDeliver(run: RunId, delivery: string)
    | TReport(e: Evidence)

  function Apply(t: Tables, x: Transaction): Tables {
    match x
    case TSubmit(id, root) => Submit(t, id, root)
    case TDeny(id, root) => DenyTurn(t, id, root)
    case TInterrupt(id, run) => Interrupt(t, id, run)
    case TBind(id, run, prepared) => Bind(t, id, run, prepared)
    case TAdmit(a) => Admit(t, a).0
    case TComplete(c) => Complete(t, c).0
    case TOpenRun(run, status, root) => OpenRun(t, run, status, root)
    case TSetStatus(run, status) => SetRunStatus(t, run, status)
    case TDeliver(run, delivery) => Deliver(t, run, delivery)
    case TReport(e) => Report(t, e)
  }

  /** Any interleaving of handlers is a sequence of transactions. */
  function Run(t: Tables, xs: seq<Transaction>): Tables
    decreases |xs|
  {
    if xs == [] then t else Run(Apply(t, xs[0]), xs[1..])
  }

  const Empty := Tables(map[], map[], map[], map[], map[], [], map[])
}
