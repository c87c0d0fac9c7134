/** The rows of one task as a mutable store; each mutation is proved against its function on values. */
module VerificationStore {
  import opened Wrappers
  import opened VerificationTables

  class Store {
    var revision: nat
    var root: Option<string>
    var changed: bool
    var contracts: seq<Contract>
    var results: seq<ResultRow>
    var evidence: map<string, EvidenceRow>
    var receipts: map<string, Receipt>

    function Snapshot(): Task
      reads this
    {
      Task(revision, root, changed, contracts, results, evidence, receipts)
    }

    constructor ()
      ensures Snapshot() == NewTask
    {
      revision, root, changed := 0, None, false;
      contracts, results := [], [];
      evidence, receipts := map[], map[];
    }

    /** Insert a new contract version, row by row. */
    method DefineContract(checks: seq<Check>) returns (version: nat)
      modifies this`contracts
      ensures version == |old(contracts)| + 1
      ensures contracts == old(contracts) + [DefineRows(checks, Newest(old(Snapshot())), version)]
    {
      version := |contracts| + 1;
      var prior := if contracts == [] then None else Some(contracts[|contracts| - 1]);
      var rows: Contract := map[];
      for k := 0 to |checks|
        invariant rows == DefineRows(checks[..k], prior, version)
      {
        var check := checks[k];
        var hash := DefinitionHash(check, version);
        if prior.Some? && check.id in prior.value {
          var before := prior.value[check.id];
          if before.check.target == check.target && before.check.expected == check.expected
            && before.check.procedure == check.procedure && before.check.id == check.id {
            hash := before.hash;
          }
        }
        assert checks[..k + 1][..k] == checks[..k];
        rows := rows[check.id := CheckRow(check, hash)];
      }
      assert checks[..|checks|] == checks;
      contracts := contracts + [rows];
    }

    /** Insert a result row after every binding of its evidence has been checked. */
    method RecordVerification(w: World, at: string, version: nat, check: CheckId, target: string, source: Source)
      returns (r: Result<ResultRow, Error>)
      modifies this`results
      ensures r == RecordEffect(old(Snapshot()), w, at, version, check, target, source)
      ensures results == if r.Ok? then old(results) + [r.value] else old(results)
    {
      if |contracts| == 0 || version != |contracts| {
        return Err(ContractChanged);
      }
      var evidenceTarget: Option<string> := None;
      var outcome: Outcome;
      var provenance := ModelReported;
      match source {
        case Local(id) =>
          if id !in evidence {
            return Err(TargetMismatch);
          }
          var e := evidence[id];
          if !e.ofThisRun || e.root != at || e.state != w.digest || e.target.None? || e.target.value == "" {
            return Err(TargetMismatch);
          }
          evidenceTarget := e.target;
          outcome := e.outcome;
          if outcome == Passed && e.exit != Some(0) {
            outcome := Unknown;
          }
          provenance := e.provenance;
        case Ci(commit, conclusion) =>
          if w.head != Some(commit) {
            return Err(TargetMismatch);
          }
          outcome := CiOutcome(conclusion);
      }
      var newest := contracts[|contracts| - 1];
      if check !in newest || newest[check].check.target != target
        || (evidenceTarget.Some? && evidenceTarget.value != target) {
        return Err(SelectionMismatch);
      }
      var row := ResultRow(version, check, newest[check].hash, target, outcome, w.digest, source, provenance);
      results := results + [row];
      return Ok(row);
    }

    method ApplyEffect(w: World, at: string, m: Mutation, next: nat) returns (r: Result<Response, Error>)
      modifies this`contracts, this`results, this`evidence
      ensures var e := Effect(old(Snapshot()), w, at, m, next);
              if e.Err? then r == Err(e.error) && Snapshot() == old(Snapshot())
              else r == Ok(e.value.1) && Snapshot() == e.value.0
    {
      match m
      case Define(_, checks) =>
        if !w.clean {
          return Err(SecurityRejection);
        }
        var version := DefineContract(checks);
        return Ok(Defined(version, |checks|, next));
      case RecordResult(version, check, target, source) =>
        var row := RecordVerification(w, at, version, check, target, source);
        if row.Err? {
          return Err(row.error);
        }
        return Ok(Recorded(row.value.outcome, row.value.provenance, next));
      case RecordEvidence(id, row) =>
        if id in evidence || row.state != w.digest {
          return Err(TargetMismatch);
        }
        evidence := evidence[id := row.(ofThisRun := true, root := at)];
        return Ok(Other(next));
      case OtherMutation(_) =>
        return Ok(Other(next));
    }

    /** The mutation envelope: receipts, preconditions, effect, revision, receipt. */
    method AssuranceMutation(input: Input, w: World) returns (r: Result<Response, Error>)
      modifies this
      ensures var e := Mutate(old(Snapshot()), input, w);
              if e.Err? then r == Err(e.error) && Snapshot() == old(Snapshot())
              else r == Ok(e.value.1) && Snapshot() == e.value.0
    {
      if !ValidInput(input.mutation) {
        return Err(Validation);
      }
      if input.request in receipts {
        var prior := receipts[input.request];
        return if prior.input == input then Ok(prior.response) else Err(RequestIdReused);
      }
      if !w.active {
        return Err(RunNotActive);
      }
      if w.root.None? || (root.Some? && root != w.root) {
        return Err(RepositoryMismatch);
      }
      if revision != input.expectedRevision {
        return Err(RevisionChanged);
      }
      var before := root;
      root := w.root;
      var next := revision + if Advances(input.mutation) then 1 else 0;
      r := ApplyEffect(w, w.root.value, input.mutation, next);
      if r.Err? {
        root := before;
        return;
      }
      revision := next;
      receipts := receipts[input.request := Receipt(input, r.value)];
    }
  }
}
