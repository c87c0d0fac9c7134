/** Verification contracts of one task: versioned check definitions, recorded results, and the
    revision-checked, idempotent mutations that write them. */
module VerificationTables {
  import opened Wrappers

  type Digest = string
  type CheckId = string

  datatype Check = Check(id: CheckId, target: string, expected: string, procedure: string)

  /** The canonical hash of a check together with the contract version that introduced it. */
  datatype DefinitionHash = DefinitionHash(check: Check, version: nat)

  datatype CheckRow = CheckRow(check: Check, hash: DefinitionHash)

  type Contract = map<CheckId, CheckRow>

  datatype Outcome = Passed | Failed | Skipped | Unknown

  datatype Provenance = ModelReported | ClientObserved

  datatype Source = Local(evidence: string) | Ci(commit: string, conclusion: Conclusion)

  datatype Conclusion = Success | Failure | CiCancelled | TimedOut | CiSkipped | CiUnknown

  datatype ResultRow = ResultRow(
    version: nat, check: CheckId, hash: DefinitionHash, target: string,
    outcome: Outcome, state: Digest, source: Source, provenance: Provenance)

  datatype EvidenceRow = EvidenceRow(
    ofThisRun: bool, root: string, state: Digest, target: Option<string>,
    outcome: Outcome, exit: Option<int>, provenance: Provenance)

  datatype Mutation =
    | Define(reason: string, checks: seq<Check>)
    | RecordResult(version: nat, check: CheckId, target: string, source: Source)
    | RecordEvidence(id: string, row: EvidenceRow)
    | OtherMutation(advance: bool)          // a memory review or refresh: same receipts, same revision

  datatype Input = Input(request: string, expectedRevision: nat, mutation: Mutation)

  datatype Response =
    | Defined(version: nat, count: nat, revision: nat)
    | Recorded(outcome: Outcome, provenance: Provenance, revision: nat)
    | Other(revision: nat)

  datatype Receipt = Receipt(input: Input, response: Response)

  datatype Error =
    | Validation | RequestIdReused | RunNotActive | RepositoryMismatch | RevisionChanged
    | SecurityRejection | ContractChanged | TargetMismatch | SelectionMismatch

  /** `contracts[v - 1]` is version v. */
  datatype Task = Task(
    revision: nat, root: Option<string>, changed: bool,
    contracts: seq<Contract>, results: seq<ResultRow>,
    evidence: map<string, EvidenceRow>, receipts: map<string, Receipt>)

  const NewTask := Task(0, None, false, [], [], map[], map[])

  /** What a mutation sees of the world: whether the run is active, the repository root that the given
      directory belongs to, the state digest there, the clean HEAD commit, and whether sanitising the
      texts would leave them as they are. */
  datatype World = World(active: bool, root: Option<string>, digest: Digest, head: Option<string>, clean: bool)

  predicate UniqueIds(checks: seq<Check>) {
    forall i, j | 0 <= i < j < |checks| :: checks[i].id != checks[j].id
  }

  predicate ValidInput(m: Mutation) {
    match m
    case Define(_, checks) => 1 <= |checks| <= 100 && UniqueIds(checks)
    case RecordResult(version, _, _, _) => version >= 1
    case RecordEvidence(_, row) => row.outcome.Passed? ==> row.exit == Some(0)
    case OtherMutation(_) => true
  }

  /** An unchanged check keeps the hash of the previous version; any other gets one of its own. */
  function NextHash(prior: Option<Contract>, check: Check, version: nat): DefinitionHash {
    if prior.Some? && check.id in prior.value && prior.value[check.id].check == check
    then prior.value[check.id].hash
    else DefinitionHash(check, version)
  }

  function DefineRows(checks: seq<Check>, prior: Option<Contract>, version: nat): Contract {
    if checks == [] then map[]
    else
      var check := checks[|checks| - 1];
      DefineRows(checks[..|checks| - 1], prior, version)[check.id := CheckRow(check, NextHash(prior, check, version))]
  }

  function Newest(t: Task): Option<Contract> {
    if t.contracts == [] then None else Some(t.contracts[|t.contracts| - 1])
  }

  /** The row of a check in version v, if that version has it. */
  function RowAt(contracts: seq<Contract>, v: int, id: CheckId): Option<CheckRow> {
    if 1 <= v <= |contracts| && id in contracts[v - 1] then Some(contracts[v - 1][id]) else None
  }

  function CiOutcome(c: Conclusion): Outcome {
    match c
    case Success => Passed
    case CiSkipped => Skipped
    case CiUnknown => Unknown
    case _ => Failed
  }

  /** The evidence is of this run, at this root and state, with a target of its own. */
  predicate EvidenceFits(t: Task, root: string, digest: Digest, id: string) {
    && id in t.evidence
    && var e := t.evidence[id]; e.ofThisRun && e.root == root && e.state == digest && e.target.Some? && e.target.value != ""
  }

  function EvidenceOutcome(e: EvidenceRow): Outcome {
    if e.outcome.Passed? && e.exit != Some(0) then Unknown else e.outcome
  }

  function RecordEffect(t: Task, w: World, root: string, version: nat, check: CheckId, target: string, source: Source)
    : Result<ResultRow, Error>
  {
    if version != |t.contracts| || t.contracts == [] then Err(ContractChanged)
    else if source.Local? && !EvidenceFits(t, root, w.digest, source.evidence) then Err(TargetMismatch)
    else if source.Ci? && w.head != Some(source.commit) then Err(TargetMismatch)
    else if check !in Newest(t).value || Newest(t).value[check].check.target != target
            || (source.Local? && t.evidence[source.evidence].target != Some(target)) then Err(SelectionMismatch)
    else
      Ok(ResultRow(version, check, Newest(t).value[check].hash, target,
                   if source.Local? then EvidenceOutcome(t.evidence[source.evidence]) else CiOutcome(source.conclusion),
                   w.digest, source,
                   if source.Local? then t.evidence[source.evidence].provenance else ModelReported))
  }

  function Advances(m: Mutation): bool {
    !m.RecordEvidence? && (m.OtherMutation? ==> m.advance)
  }

  /** The effect of a mutation that passed every check of its envelope. */
  function Effect(t: Task, w: World, root: string, m: Mutation, revision: nat): Result<(Task, Response), Error> {
    match m
    case Define(_, checks) =>
      if !w.clean then Err(SecurityRejection)
      else
        var version := |t.contracts| + 1;
        Ok((t.(contracts := t.contracts + [DefineRows(checks, Newest(t), version)]),
            Defined(version, |checks|, revision)))
    case RecordResult(version, check, target, source) =>
      var row := RecordEffect(t, w, root, version, check, target, source);
      if row.Err? then Err(row.error)
      else Ok((t.(results := t.results + [row.value]), Recorded(row.value.outcome, row.value.provenance, revision)))
    case RecordEvidence(id, row) =>
      if id in t.evidence || row.state != w.digest then Err(TargetMismatch)
      else Ok((t.(evidence := t.evidence[id := row.(ofThisRun := true, root := root)]), Other(revision)))
    case OtherMutation(_) => Ok((t, Other(revision)))
  }

  /** One immediate transaction: replay an exact retry, refuse a reused request ID or a stale revision,
      otherwise apply the effect, advance the revision and keep the receipt. Errors change nothing. */
  function Mutate(t: Task, input: Input, w: World): Result<(Task, Response), Error> {
    if !ValidInput(input.mutation) then Err(Validation)
    else if input.request in t.receipts then
      if t.receipts[input.request].input == input then Ok((t, t.receipts[input.request].response)) else Err(RequestIdReused)
    else if !w.active then Err(RunNotActive)
    else if w.root.None? || (t.root.Some? && t.root != w.root) then Err(RepositoryMismatch)
    else if t.revision != input.expectedRevision then Err(RevisionChanged)
    else
      var revision := t.revision + if Advances(input.mutation) then 1 else 0;
      var r := Effect(t.(root := w.root), w, w.root.value, input.mutation, revision);
      if r.Err? then Err(r.error)
      else Ok((r.value.0.(revision := revision, receipts := t.receipts[input.request := Receipt(input, r.value.1)]),
               r.value.1))
  }

  function After(t: Task, input: Input, w: World): Task {
    var r := Mutate(t, input, w);
    if r.Ok? then r.value.0 else t
  }

  /** What happens to a task: a mutation or retry, or an observation by the client hook, which notes a change of the
      repository or stores evidence of its own under a fresh identifier. */
  datatype Call =
    | Call(input: Input, world: World)
    | ChangeObserved(newState: bool)
    | EvidenceObserved(id: string, row: EvidenceRow)

  function Next(t: Task, c: Call): Task {
    match c
    case Call(input, world) => After(t, input, world)
    case ChangeObserved(newState) => if newState then t.(changed := true, revision := t.revision + 1) else t
    case EvidenceObserved(id, row) => if id in t.evidence then t else t.(evidence := t.evidence[id := row])
  }

  /** Any sequence of mutations, retries and observations. */
  function Run(t: Task, calls: seq<Call>): Task
    decreases |calls|
  {
    if calls == [] then t else Run(Next(t, calls[0]), calls[1..])
  }

  // The report.

  datatype CheckStatus = Pending | Status(outcome: Outcome)

  datatype Mode = NotRequired | Required

  datatype Report = Report(mode: Mode, version: Option<nat>, ready: bool, checks: map<CheckId, CheckStatus>)

  /** Index of the newest result of a check, whatever version it was recorded under. */
  function LatestResult(results: seq<ResultRow>, check: CheckId): (k: Option<nat>)
    ensures k.Some? ==> k.value < |results| && results[k.value].check == check
                        && forall j | k.value < j < |results| :: results[j].check != check
    ensures k.None? ==> forall j | 0 <= j < |results| :: results[j].check != check
  {
    if results == [] then None
    else if results[|results| - 1].check == check then Some(|results| - 1)
    else LatestResult(results[..|results| - 1], check)
  }

  predicate StaleResult(t: Task, w: World, row: CheckRow, r: ResultRow) {
    || r.hash != row.hash
    || t.root.None?
    || r.state != w.digest
    || (r.source.Ci? && w.head != Some(r.source.commit))
  }

  /** Only the newest result counts; it is compared before any older one is looked at. */
  function StatusOf(t: Task, w: World, row: CheckRow): CheckStatus {
    var k := LatestResult(t.results, row.check.id);
    if k.None? || StaleResult(t, w, row, t.results[k.value]) then Pending else Status(t.results[k.value].outcome)
  }

  /** `building` says that the task profile is a build or a debug task. */
  function ReportOn(t: Task, w: World, building: bool): Report {
    if !building && !t.changed && t.contracts == [] then Report(NotRequired, None, true, map[])
    else if t.contracts == [] then Report(Required, None, false, map[])
    else
      var checks := map id | id in Newest(t).value :: StatusOf(t, w, Newest(t).value[id]);
      Report(Required, Some(|t.contracts|),
             Newest(t).value != map[] && forall id | id in checks :: checks[id] == Status(Passed),
             checks)
  }

  datatype Closing = ClosesCompleted | ClosesOtherwise

  /** Only a close as completed needs verification to be ready. */
  predicate MayClose(t: Task, w: World, building: bool, closing: Closing) {
    closing.ClosesOtherwise? || ReportOn(t, w, building).ready
  }
}
