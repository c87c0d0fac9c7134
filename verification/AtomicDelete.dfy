/** Conditional deletion of a file, by way of a quarantine from which it can still be restored. */
module AtomicDelete {
  import opened Wrappers
  import opened AtomicNames
  import opened Disks
  import opened Directories
  import opened AtomicCleanup
  import opened AtomicUpdate
  import opened AtomicHistory
  import opened AtomicInstall

  datatype DeleteResult = Deletion(cleanup: seq<CleanupFailure>) | DeleteThrew(error: Thrown)

  /** The failures that an outcome lists. */
  function Listed(r: DeleteResult): seq<CleanupFailure> {
    match r
    case Deletion(c) => c
    case DeleteThrew(e) => FailuresOf(e)
  }

  function DeletedName(file: string, u: Uuid): string { QuarantineName(file, u, Deleted) }

  function DeleteNames(file: string, u: Uuid, v: Uuid): set<string> {
    {file, DeletedName(file, u), DisposalName(DeletedName(file, u), v)}
  }

  function DeleteSession(d: World, quiet: bool, file: string, ex: Expectation): Session {
    Session(file, ex.expected, None, "", 0, d.parent, Deleted, quiet, d)
  }

  /** Names that nothing has used and that no alternate asks for. */
  ghost predicate FreshDelete(d: Disk, file: string, ex: Expectation, u: Uuid, v: Uuid) {
    && d.names.Keys !! (DeleteNames(file, u, v) - {file})
    && forall k | 0 <= k < |ex.mustRemainAbsent| :: ex.mustRemainAbsent[k] !in DeleteNames(file, u, v)
  }

  lemma FreshNamesAreFree(d: Disk, file: string, ex: Expectation, u: Uuid, v: Uuid)
    requires FreshDelete(d, file, ex, u, v)
    ensures Reported(DeleteNames(file, u, v) - {file}, d, [])
  {
  }

  /** An alternate exists, or cannot be ruled out. */
  method FindAlternate(dir: Directory, alternates: seq<string>, bound: nat) returns (conflict: bool)
    modifies dir`faults
    ensures LaterAt(old(dir.faults), dir.faults, |dir.trace|)
    ensures !conflict ==> forall k | 0 <= k < |alternates| :: alternates[k] !in dir.disk.names
    ensures dir.faults == old(dir.faults) && dir.disk.parent == bound ==>
              (conflict <==> exists k | 0 <= k < |alternates| :: alternates[k] in dir.disk.names)
  {
    for k := 0 to |alternates|
      invariant LaterAt(old(dir.faults), dir.faults, |dir.trace|)
      invariant forall j | 0 <= j < k :: alternates[j] !in dir.disk.names
    {
      var r := dir.Read(alternates[k], bound);
      if r != Missing {
        return true;
      }
    }
    return false;
  }

  lemma PutBackNames(d: Disk, n: string, file: string, disposal: string)
    requires n in d.names && n != file && disposal != file
    ensures n !in PutBack(d, n, file).names
    ensures disposal !in d.names ==> disposal !in PutBack(d, n, file).names
  {
  }

  /** No alternate exists: the deletion is committed, and the quarantined original is disposed of. */
  method CommitDelete(dir: Directory, ghost s: Session, file: string, expected: Snapshot, q: Quarantined, bound: nat,
                      ghost u: Uuid, v: Uuid)
    returns (r: DeleteResult)
    requires dir.Inv(s) && s.parent == bound && s.file == file && s.expected == Some(expected) && s.kind.Deleted?
    requires q.name == DeletedName(file, u) && q.artifact.snapshot == expected
    requires dir.disk.parent == bound && file !in dir.disk.names && ArtifactAt(dir.disk, q.name) == Some(q.artifact)
    requires dir.quiet ==> ShelteredAs(s, dir.disk, q.name)
    modifies dir
    ensures Later(old(dir.faults), dir.faults)
    ensures dir.Inv(s) && Committed(dir.trace) && Extends(old(dir.trace), dir.trace)
    ensures r.DeleteThrew? ==> r.error.CommittedUnlink?
    ensures dir.quiet ==> CleanupEffect(old(dir.disk), dir.disk, q.name, DisposalName(q.name, v))
    ensures dir.quiet && r == Deletion([]) ==> dir.disk == Removed(old(dir.disk), q.name)
    ensures dir.quiet && dir.faults == old(dir.faults) && DisposalName(q.name, v) !in old(dir.disk).names ==> r == Deletion([])
    ensures dir.quiet && dir.faults.count <= old(dir.faults).count + 1 && DisposalName(q.name, v) !in old(dir.disk).names ==>
              Reported({q.name, DisposalName(q.name, v)}, dir.disk, Listed(r))
  {
    hide AllSafe, Recoverable, Anchored, Recognise, Committed;
    CreatedNamesAreLonger(file, u, Deleted);
    dir.MarkCommit(s);
    var failure := CleanupBoundArtifact(dir, s, q.name, Some(q.artifact), bound, v);
    var ok := dir.RequireBoundDirectory(bound);
    var failures := if failure.None? then [] else [failure.value];
    return if ok then Deletion(failures) else DeleteThrew(CommittedUnlink(failures));
  }

  /** After the target went to quarantine: check, look for alternates, then commit and dispose of it. */
  method FinishDelete(dir: Directory, ghost s: Session, file: string, expected: Snapshot, q: Quarantined,
                      alternates: seq<string>, bound: nat, ghost u: Uuid, v: Uuid)
    returns (r: DeleteResult)
    requires dir.Inv(s) && s.parent == bound && s.file == file && s.expected == Some(expected) && s.kind.Deleted?
    requires q.name == DeletedName(file, u) && q.artifact.snapshot == expected && q.artifact.links >= 1
    requires dir.quiet ==> ShelteredAs(s, dir.disk, q.name) && file !in dir.disk.names
    requires dir.disk.parent == bound && JustTaken(dir.trace, file)
    requires dir.quiet ==> ArtifactAt(dir.disk, q.name) == Some(q.artifact)
    modifies dir
    ensures Later(old(dir.faults), dir.faults)
    ensures dir.Inv(s)
    ensures r.Deletion? ==> Committed(dir.trace)
    ensures dir.quiet ==> Elsewhere(old(dir.disk), dir.disk, DeleteNames(file, u, v))
    ensures dir.quiet ==>
              match r
              case Deletion(c) =>
                && file !in dir.disk.names
                && (c == [] ==> dir.disk == Removed(old(dir.disk), q.name))
                && (forall k | 0 <= k < |alternates| :: alternates[k] !in old(dir.disk).names)
              case DeleteThrew(e) =>
                && !e.CommittedMutation?
                && SnapshotAt(dir.disk, file) in {None, Some(expected)}
                && (e.Plain? ==> SnapshotAt(dir.disk, file) == Some(expected))
    ensures dir.quiet && dir.faults == old(dir.faults) && DisposalName(q.name, v) !in old(dir.disk).names
              && (forall k | 0 <= k < |alternates| :: alternates[k] !in old(dir.disk).names)
            ==> r == Deletion([])
    ensures dir.quiet && dir.faults == old(dir.faults)
              && (exists k | 0 <= k < |alternates| :: alternates[k] in old(dir.disk).names)
            ==> r.DeleteThrew? && r.error.Plain?
    ensures dir.quiet && dir.faults.count <= old(dir.faults).count + 1 && r.DeleteThrew?
              && (forall k | 0 <= k < |alternates| :: alternates[k] !in old(dir.disk).names)
            ==> r.error.Plain? || Committed(dir.trace)
                || (dir.faults.count == old(dir.faults).count + 1 && Gap(dir.trace, file, dir.faults.last))
    ensures dir.quiet && dir.faults.count <= old(dir.faults).count + 1 && DisposalName(q.name, v) !in old(dir.disk).names
              && (forall k | 0 <= k < |alternates| :: alternates[k] !in old(dir.disk).names)
            ==> Reported({q.name, DisposalName(q.name, v)}, dir.disk, Listed(r))
  {
    hide AllSafe, Recoverable, Anchored, Recognise, Committed;
    CreatedNamesAreLonger(file, u, Deleted);
    CreatedNamesAreLonger(q.name, v, Deleted);
    if dir.quiet {
      PutBackNames(dir.disk, q.name, file, DisposalName(q.name, v));
    }
    hide Gap, JustTaken, LinkCount;
    var misplaced := CheckTaken(dir, s, file, q.name, q.artifact, bound);
    if misplaced.Some? {
      return DeleteThrew(misplaced.value);
    }
    var conflict := FindAlternate(dir, alternates, bound);
    if conflict {
      var e := RestoreAndThrow(dir, s, file, expected, q, [], bound, v);
      return DeleteThrew(e);
    }
    r := CommitDelete(dir, s, file, expected, q, bound, u, v);
  }

  /** Bind the directory, and check the plan before and after the hook. */
  method ConfirmPlan(dir: Directory, ghost s: Session, file: string, ex: Expectation, bound: nat) returns (ok: bool)
    requires dir.Inv(s) && dir.disk.parent == bound
    modifies dir
    ensures Later(old(dir.faults), dir.faults)
    ensures dir.Inv(s) && Extends(old(dir.trace), dir.trace)
    ensures dir.quiet ==> dir.disk == old(dir.disk)
    ensures ok ==> ExpectationHolds(dir.disk, file, ex)
    ensures dir.quiet && ok ==> Plannable(dir.disk, file, ex)
    ensures dir.quiet && dir.faults == old(dir.faults) && Plannable(old(dir.disk), file, ex) ==> ok
  {
    hide AllSafe, Recoverable, Anchored, Committed, SnapshotAt;
    ok := dir.Attempt();
    ok := ok && (ex.expectedParent.Some? ==> ex.expectedParent.value == bound);
    if ok {
      ok := AssertFileExpectation(dir, file, ex, bound);
    }
    if ok {
      var threw := dir.Interfere(s);
      ok := !threw;
    }
    if ok {
      ok := dir.RequireBoundDirectory(bound);
    }
    if ok {
      ok := AssertFileExpectation(dir, file, ex, bound);
    }
  }

  /** Delete only when the target is still the exact planned file.

      As for an update: every step is safe, outcomes are truthful with quiet hooks, and without faults the deletion happens
      exactly when the plan still holds. After a single fault the target goes only with a deletion that had been committed, unless
      that fault came right after the target was taken to quarantine, and every name left behind is reported. */
  method UnlinkRegularFileIfUnchanged(dir: Directory, file: string, ex: Expectation, u: Uuid, v: Uuid)
    returns (r: DeleteResult, ghost s: Session)
    requires dir.trace == [] && dir.faults.count == 0
    modifies dir
    ensures Later(old(dir.faults), dir.faults)
    ensures s == DeleteSession(old(dir.disk), dir.quiet, file, ex)
    ensures History(s, dir.trace, old(dir.disk), dir.disk)
    ensures r.Deletion? ==> CommittedBefore(s, dir.trace, |dir.trace|)
    ensures dir.quiet ==> Elsewhere(old(dir.disk), dir.disk, DeleteNames(file, u, v))
    ensures dir.quiet ==>
              match r
              case Deletion(c) =>
                && file !in dir.disk.names && file in old(dir.disk).names && ExpectationHolds(old(dir.disk), file, ex)
                && (c == [] ==> dir.disk == Removed(old(dir.disk), file))
              case DeleteThrew(Plain(_)) => TargetKept(old(dir.disk), dir.disk, file)
              case DeleteThrew(CommittedUnlink(_)) =>
                file !in dir.disk.names || TargetKept(old(dir.disk), dir.disk, file)
              case DeleteThrew(CommittedMutation(_)) => false
    ensures dir.quiet && dir.faults.count == 0 && FreshDelete(old(dir.disk), file, ex, u, v) ==>
              if Plannable(old(dir.disk), file, ex) && ex.expected.Some? then r == Deletion([])
              else r == DeleteThrew(Plain([])) && dir.disk == old(dir.disk)
    ensures dir.quiet && SingleFaultElsewhere(dir.trace, dir.faults, file) && FreshDelete(old(dir.disk), file, ex, u, v) ==>
              TargetKept(old(dir.disk), dir.disk, file) || CommittedBefore(s, dir.trace, |dir.trace|)
    ensures dir.quiet && SingleFaultElsewhere(dir.trace, dir.faults, file) && FreshDelete(old(dir.disk), file, ex, u, v)
              && r.DeleteThrew? && r.error.CommittedUnlink?
            ==> CommittedBefore(s, dir.trace, |dir.trace|)
    ensures dir.quiet && dir.faults.count <= 1 && FreshDelete(old(dir.disk), file, ex, u, v) ==>
              Reported(DeleteNames(file, u, v) - {file}, dir.disk, Listed(r))
  {
    if FreshDelete(dir.disk, file, ex, u, v) {
      FreshNamesAreFree(dir.disk, file, ex, u, v);
    }
    hide History, CommittedBefore, FreshDelete, Reported, AllSafe, Recoverable, Anchored, Committed, Gap, DeleteNames, LinkCount;
    s := DeleteSession(dir.disk, dir.quiet, file, ex);
    var bound := dir.disk.parent;
    var ok := ConfirmPlan(dir, s, file, ex, bound);
    if !ok || ex.expected.None? {
      r := DeleteThrew(Plain([]));
      InvIsHistory(dir, s);
      return;
    }
    r := DeletePlanned(dir, s, file, ex, bound, u, v);
    InvIsHistory(dir, s);
  }

  /** Quarantine the confirmed target and finish. */
  method DeletePlanned(dir: Directory, ghost s: Session, file: string, ex: Expectation, bound: nat, u: Uuid, v: Uuid)
    returns (r: DeleteResult)
    requires dir.Inv(s) && s.parent == bound && s.file == file && s.kind.Deleted? && s.expected == ex.expected
    requires ex.expected.Some? && (dir.quiet ==> s.start == dir.disk)
    modifies dir
    ensures Later(old(dir.faults), dir.faults)
    ensures dir.Inv(s)
    ensures r.Deletion? ==> Committed(dir.trace)
    ensures dir.quiet ==> Elsewhere(old(dir.disk), dir.disk, DeleteNames(file, u, v))
    ensures dir.quiet ==>
              match r
              case Deletion(c) =>
                && file !in dir.disk.names && file in old(dir.disk).names
                && (c == [] ==> dir.disk == Removed(old(dir.disk), file))
              case DeleteThrew(Plain(_)) => TargetKept(old(dir.disk), dir.disk, file)
              case DeleteThrew(CommittedUnlink(_)) =>
                file !in dir.disk.names || TargetKept(old(dir.disk), dir.disk, file)
              case DeleteThrew(CommittedMutation(_)) => false
    ensures dir.quiet && dir.faults == old(dir.faults) && old(dir.disk.parent) == bound
              && ExpectationHolds(old(dir.disk), file, ex)
              && FreshDelete(old(dir.disk), file, ex, u, v)
            ==> r == Deletion([])
    ensures dir.quiet && dir.faults.count <= old(dir.faults).count + 1 && ExpectationHolds(old(dir.disk), file, ex)
              && FreshDelete(old(dir.disk), file, ex, u, v) && r.DeleteThrew?
            ==> r.error.Plain? || Committed(dir.trace)
                || (dir.faults.count == old(dir.faults).count + 1 && Gap(dir.trace, file, dir.faults.last))
    ensures dir.quiet && dir.faults.count <= old(dir.faults).count + 1 && ExpectationHolds(old(dir.disk), file, ex)
              && FreshDelete(old(dir.disk), file, ex, u, v)
            ==> Reported(DeleteNames(file, u, v) - {file}, dir.disk, Listed(r))
  {
    hide Committed, Recognise, AllSafe, Recoverable, Anchored;
    var expected := ex.expected.value;
    CreatedNamesAreLonger(file, u, Deleted);
    CreatedNamesAreLonger(DeletedName(file, u), v, Deleted);
    QuarantineRecognised(file, u, Deleted);
    ghost var d := dir.disk;
    var planned := MoveToQuarantine(dir, s, file, expected, Deleted, bound, u);
    if planned.None? {
      return DeleteThrew(Plain([]));
    }
    var q := Quarantined(DeletedName(file, u), planned.value);
    ghost var moved := dir.disk;
    if dir.quiet {
      MovedArtifact(d, file, q.name, planned.value);
      assert ShelteredAs(s, moved, q.name);
      assert Removed(moved, q.name) == Removed(d, file);
    }
    r := FinishDelete(dir, s, file, expected, q, ex.mustRemainAbsent, bound, u, v);
    if dir.quiet {
      ElsewhereTrans(d, moved, dir.disk, {file, q.name}, DeleteNames(file, u, v), DeleteNames(file, u, v));
    }
  }
}
