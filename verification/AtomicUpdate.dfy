/** Conditional replacement of a file: quarantine the planned original, link the new file at the target,
    validate, roll back when an alternate target appears, and clean up. */
module AtomicUpdate {
  import opened Wrappers
  import opened AtomicNames
  import opened Disks
  import opened Directories
  import opened AtomicCleanup

  /** The binding, bytes and mode of the target are what they were. */
  ghost predicate TargetKept(before: Disk, after: Disk, file: string) {
    SnapshotAt(after, file) == SnapshotAt(before, file)
  }

  /** How the target may look after an error, when hooks change nothing. */
  ghost predicate Truthful(before: Disk, after: Disk, file: string, e: Thrown, installed: Snapshot) {
    match e
    case Plain(_) => TargetKept(before, after, file)
    case CommittedUnlink(_) => file !in after.names || TargetKept(before, after, file)
    case CommittedMutation(_) => SnapshotAt(after, file) == Some(installed)
  }

  /** What the target shows after an error raised while it was empty or freshly installed. */
  ghost predicate Shows(d: Disk, file: string, e: Thrown, expected: Option<Snapshot>, installed: Snapshot) {
    match e
    case Plain(_) => SnapshotAt(d, file) == expected
    case CommittedUnlink(_) => SnapshotAt(d, file) in {None, expected}
    case CommittedMutation(_) => SnapshotAt(d, file) == Some(installed)
  }

  datatype Quarantined = Quarantined(name: string, artifact: Artifact)

  /** Check the planned target, let the hook run, check again, and take the target to quarantine. */
  method MoveToQuarantine(dir: Directory, ghost s: Session, file: string, expected: Snapshot, kind: QuarantineKind,
                          bound: nat, u: Uuid)
    returns (r: Option<Artifact>)
    requires dir.Inv(s) && s.parent == bound && s.file == file && s.expected == Some(expected)
    requires s.kind == kind
    requires dir.quiet ==> SnapshotAt(dir.disk, file) == SnapshotAt(s.start, file)
    modifies dir
    ensures Later(old(dir.faults), dir.faults)
    ensures dir.Inv(s) && Extends(old(dir.trace), dir.trace)
    ensures dir.quiet && r.None? ==> dir.disk == old(dir.disk)
    ensures r.Some? ==>
              && r.value.snapshot == expected && r.value.links >= 1
              && dir.disk.parent == bound && JustTaken(dir.trace, file)
              && (dir.quiet ==>
                    && ArtifactAt(old(dir.disk), file) == r
                    && QuarantineName(file, u, kind) !in old(dir.disk).names
                    && dir.disk == Renamed(old(dir.disk), file, QuarantineName(file, u, kind)))
    ensures dir.quiet && dir.faults == old(dir.faults) && old(dir.disk.parent) == bound
              && SnapshotAt(old(dir.disk), file) == Some(expected)
              && QuarantineName(file, u, kind) !in old(dir.disk).names
            ==> r.Some?
  {
    hide AllSafe, Anchored, Committed, Recognise, Begun, QuarantineName;
    var quarantine := QuarantineName(file, u, kind);
    var planned := dir.Read(file, bound);
    if !planned.Found? || planned.artifact.snapshot != expected {
      return None;
    }
    var ok := dir.RequireAbsent(quarantine, bound);
    if !ok { return None; }
    var threw := dir.Interfere(s);
    if threw { return None; }
    ok := dir.RequireArtifact(file, planned.artifact, bound);
    if !ok { return None; }
    ok := dir.RequireAbsent(quarantine, bound);
    if !ok { return None; }
    NamedIsLinked(dir.disk, file);
    QuarantineRecognised(file, u, kind);
    CreatedNamesAreLonger(file, u, kind);
    assert dir.quiet ==> ShelteredAs(s, Renamed(dir.disk, file, quarantine), quarantine);
    ok := RenameOwned(dir, s, file, quarantine);
    if !ok { return None; }
    return Some(planned.artifact);
  }

  /** The hook right after the target was taken away, and the check that it arrived. A failure says where the original is. */
  method CheckTaken(dir: Directory, ghost s: Session, file: string, quarantine: string, taken: Artifact, bound: nat)
    returns (e: Option<Thrown>)
    requires dir.Inv(s) && JustTaken(dir.trace, file)
    modifies dir
    ensures Later(old(dir.faults), dir.faults)
    ensures dir.Inv(s) && Extends(old(dir.trace), dir.trace)
    ensures dir.quiet ==> dir.disk == old(dir.disk)
    ensures e.Some? ==> e.value.CommittedUnlink?
    ensures e.None? ==> dir.disk.parent == bound && file !in dir.disk.names && ArtifactAt(dir.disk, quarantine) == Some(taken)
    ensures dir.quiet && dir.faults.count <= old(dir.faults).count + 1 && old(dir.disk.parent) == bound
              && file !in old(dir.disk).names && ArtifactAt(old(dir.disk), quarantine) == Some(taken) && e.Some?
            ==> && dir.faults.count == old(dir.faults).count + 1 && Gap(dir.trace, file, dir.faults.last)
                && e.value == CommittedUnlink([CleanupFailure(Some(quarantine))])
  {
    hide AllSafe, Recoverable, Anchored, Committed;
    ghost var t := dir.trace;
    var threw := dir.Interfere(s);
    assert Gap(dir.trace, file, |dir.trace|) by {
      assert dir.trace[..|t|] == t;
    }
    var ok := CheckMoved(dir, file, quarantine, taken, bound);
    if ok && !threw {
      return None;
    }
    var candidates := [(quarantine, taken.snapshot)];
    assert ArtifactAt(dir.disk, quarantine) == Some(taken) ==> Holds(dir.disk, candidates[0]);
    var f := BindOwnedCleanupFailure(dir, candidates, bound);
    return Some(CommittedUnlink([f]));
  }

  /** The rename, the hook after it and the check that the target arrived. A failure before the rename changes nothing; one
      right after it says where the original is. */
  method TakeTarget(dir: Directory, ghost s: Session, file: string, expected: Snapshot, bound: nat, u: Uuid)
    returns (r: Result<Artifact, Thrown>)
    requires dir.Inv(s) && s.parent == bound && s.file == file && s.expected == Some(expected) && s.kind.Previous?
    requires dir.quiet ==> SnapshotAt(dir.disk, file) == SnapshotAt(s.start, file)
    modifies dir
    ensures Later(old(dir.faults), dir.faults)
    ensures dir.Inv(s) && Extends(old(dir.trace), dir.trace)
    ensures r.Ok? ==>
              && r.value.snapshot == expected && r.value.links >= 1
              && dir.disk.parent == bound && file !in dir.disk.names
              && ArtifactAt(dir.disk, QuarantineName(file, u, Previous)) == Some(r.value)
    ensures dir.quiet && !(r.Err? && r.error.Plain?) ==>
              && file in old(dir.disk).names && QuarantineName(file, u, Previous) !in old(dir.disk).names
              && SnapshotAt(old(dir.disk), file) == Some(expected)
              && dir.disk == Renamed(old(dir.disk), file, QuarantineName(file, u, Previous))
    ensures dir.quiet && r.Ok? ==> ArtifactAt(old(dir.disk), file) == Some(r.value)
    ensures r.Err? ==> r.error.Plain? || r.error.CommittedUnlink?
    ensures r.Err? && r.error.Plain? ==> r.error == Plain([])
    ensures dir.quiet && r.Err? && r.error.Plain? ==> dir.disk == old(dir.disk)
    ensures dir.quiet && r.Err? && r.error.CommittedUnlink? && dir.faults.count <= old(dir.faults).count + 1 ==>
              && dir.faults.count == old(dir.faults).count + 1 && Gap(dir.trace, file, dir.faults.last)
              && r.error == CommittedUnlink([CleanupFailure(Some(QuarantineName(file, u, Previous)))])
    ensures dir.quiet && dir.faults == old(dir.faults) && old(dir.disk.parent) == bound
              && SnapshotAt(old(dir.disk), file) == Some(expected) && QuarantineName(file, u, Previous) !in old(dir.disk).names
            ==> r.Ok?
  {
    hide AllSafe, Recoverable, Anchored, Committed, Recognise, Gap, JustTaken, LinkCount;
    var quarantine := QuarantineName(file, u, Previous);
    var planned := MoveToQuarantine(dir, s, file, expected, Previous, bound, u);
    if planned.None? {
      return Err(Plain([]));
    }
    if dir.quiet {
      MovedArtifact(old(dir.disk), file, quarantine, planned.value);
    }
    var e := CheckTaken(dir, s, file, quarantine, planned.value, bound);
    if e.Some? {
      return Err(e.value);
    }
    return Ok(planned.value);
  }

  /** The update's quarantine phase: a failure before the rename leaves the target alone, a failed check
      right after it reports the displaced original, and a later failure restores it. */
  method QuarantineTarget(dir: Directory, ghost s: Session, file: string, expected: Snapshot, bound: nat, u: Uuid, v: Uuid)
    returns (r: Result<Quarantined, Thrown>)
    requires dir.Inv(s) && s.parent == bound && s.file == file && s.expected == Some(expected) && s.kind.Previous?
    requires dir.quiet ==> SnapshotAt(dir.disk, file) == SnapshotAt(s.start, file)
    modifies dir
    ensures Later(old(dir.faults), dir.faults)
    ensures dir.Inv(s) && Extends(old(dir.trace), dir.trace)
    ensures r.Ok? ==>
              && r.value.name == QuarantineName(file, u, Previous)
              && r.value.artifact.snapshot == expected && r.value.artifact.links >= 1
              && (dir.quiet ==>
                    && ArtifactAt(old(dir.disk), file) == Some(r.value.artifact)
                    && r.value.name !in old(dir.disk).names
                    && dir.disk == Renamed(old(dir.disk), file, r.value.name))
    ensures r.Err? ==> r.error.Plain? || r.error.CommittedUnlink?
    ensures r.Err? && r.error.CommittedUnlink? && dir.quiet && dir.faults.count <= old(dir.faults).count + 1 ==>
              && dir.faults.count == old(dir.faults).count + 1 && Gap(dir.trace, file, dir.faults.last)
              && r.error == CommittedUnlink([CleanupFailure(Some(QuarantineName(file, u, Previous)))])
              && file in old(dir.disk).names && dir.disk == Renamed(old(dir.disk), file, QuarantineName(file, u, Previous))
    ensures r.Err? && r.error.Plain? && dir.quiet && dir.faults.count <= old(dir.faults).count + 1
              && DisposalName(QuarantineName(file, u, Previous), v) !in old(dir.disk).names
            ==> r.error == Plain([]) && dir.disk == old(dir.disk)
    ensures r.Err? && dir.quiet ==>
              && Truthful(old(dir.disk), dir.disk, file, r.error, expected)
              && Elsewhere(old(dir.disk), dir.disk,
                           {file, QuarantineName(file, u, Previous), DisposalName(QuarantineName(file, u, Previous), v)})
    ensures dir.quiet && dir.faults == old(dir.faults) && old(dir.disk.parent) == bound
              && SnapshotAt(old(dir.disk), file) == Some(expected) && QuarantineName(file, u, Previous) !in old(dir.disk).names
            ==> r.Ok?
  {
    hide AllSafe, Recoverable, Anchored, Committed, Recognise, Gap, LinkCount, PutBack, FailuresOf;
    var quarantine := QuarantineName(file, u, Previous);
    ghost var touched := {file, quarantine, DisposalName(quarantine, v)};
    ElsewhereSelf(dir.disk, touched);
    hide Elsewhere;
    var taken := TakeTarget(dir, s, file, expected, bound, u);
    ghost var moved := dir.disk;
    CreatedNamesAreLonger(file, u, Previous);
    if dir.quiet && !(taken.Err? && taken.error.Plain?) {
      RenamedElsewhere(old(dir.disk), moved, file, quarantine, touched);
    }
    if taken.Err? {
      return Err(taken.error);
    }
    var threw := dir.Interfere(s);
    var ok := false;
    if !threw {
      ok := CheckMoved(dir, file, quarantine, taken.value, bound);
    }
    if !ok {
      var e := RestoreAndThrow(dir, s, file, expected, Quarantined(quarantine, taken.value), [], bound, v);
      if dir.quiet {
        PutBackUndoes(old(dir.disk), file, quarantine);
        ElsewhereTrans(old(dir.disk), moved, dir.disk, touched, touched, touched);
      }
      return Err(e);
    }
    return Ok(Quarantined(quarantine, taken.value));
  }

  /** The file at `n` back under the name `file`. */
  function PutBack(d: Disk, n: string, file: string): Disk
    requires n in d.names
  {
    Removed(Linked(d, n, file), n)
  }

  lemma PutBackUndoes(d: Disk, file: string, n: string)
    requires file in d.names && n !in d.names
    ensures PutBack(Renamed(d, file, n), n, file) == d
  {
    assert PutBack(Renamed(d, file, n), n, file).names == d.names;
  }

  /** Restore the original from quarantine and classify what the target now shows; `earlier` failures are listed first. */
  method RestoreAndThrow(dir: Directory, ghost s: Session, file: string, expected: Snapshot, q: Quarantined,
                         earlier: seq<CleanupFailure>, bound: nat, v: Uuid)
    returns (e: Thrown)
    requires dir.Inv(s) && s.parent == bound && s.file == file && s.expected == Some(expected)
    requires |file| < |q.name| && q.artifact.snapshot == expected && q.artifact.links >= 1
    modifies dir
    ensures Later(old(dir.faults), dir.faults)
    ensures dir.Inv(s) && Extends(old(dir.trace), dir.trace)
    ensures e.Plain? || e.CommittedUnlink?
    ensures dir.quiet ==> Elsewhere(old(dir.disk), dir.disk, {file, q.name, DisposalName(q.name, v)})
    ensures dir.quiet ==> SnapshotAt(dir.disk, file) in {SnapshotAt(old(dir.disk), file), Some(expected)}
    ensures e.Plain? ==> SnapshotAt(dir.disk, file) == Some(expected)
    ensures dir.quiet && dir.faults == old(dir.faults) && old(dir.disk.parent) == bound
              && ArtifactAt(old(dir.disk), q.name) == Some(q.artifact) && file !in old(dir.disk).names
            ==> e.Plain?
    ensures dir.quiet && dir.faults == old(dir.faults) && old(dir.disk.parent) == bound
              && ArtifactAt(old(dir.disk), q.name) == Some(q.artifact) && file !in old(dir.disk).names
              && DisposalName(q.name, v) !in old(dir.disk).names
            ==> e == Plain(earlier) && dir.disk == PutBack(old(dir.disk), q.name, file)
  {
    var failures := RestoreQuarantinedTarget(dir, s, file, q.name, q.artifact, bound, v);
    e := ThrowAfterOriginalRestoreAttempt(dir, earlier + failures, file, expected, bound);
  }

  /** Where the original is while the target is away: in quarantine, if there was one. */
  ghost predicate Hidden(s: Session, d: Disk, q: Option<Quarantined>) {
    if q.Some? then ShelteredAs(s, d, q.value.name) else s.file !in s.start.names
  }

  /** What was taken to quarantine is still there, unchanged. */
  ghost predicate Held(d: Disk, q: Option<Quarantined>) {
    q.Some? ==> ArtifactAt(d, q.value.name) == Some(q.value.artifact)
  }

  ghost predicate QuarantineFits(file: string, expected: Option<Snapshot>, q: Option<Quarantined>) {
    if q.None? then expected.None?
    else && |file| < |q.value.name|
         && expected == Some(q.value.artifact.snapshot) && q.value.artifact.links >= 1
  }

  method CheckHeld(dir: Directory, q: Option<Quarantined>, bound: nat) returns (ok: bool)
    modifies dir`faults
    ensures LaterAt(old(dir.faults), dir.faults, |dir.trace|)
    ensures ok && q.Some? ==> ArtifactAt(dir.disk, q.value.name) == Some(q.value.artifact)
    ensures dir.faults == old(dir.faults) && dir.disk.parent == bound
              && Held(dir.disk, q)
            ==> ok
  {
    ok := true;
    if q.Some? {
      ok := dir.RequireArtifact(q.value.name, q.value.artifact, bound);
    }
  }

  method ValidatePreInstall(dir: Directory, temporary: string, prepared: Artifact, file: string,
                            q: Option<Quarantined>, bound: nat)
    returns (ok: bool)
    modifies dir`faults
    ensures LaterAt(old(dir.faults), dir.faults, |dir.trace|)
    ensures ok ==> && dir.disk.parent == bound && ArtifactAt(dir.disk, temporary) == Some(prepared)
                   && file !in dir.disk.names
    ensures dir.faults == old(dir.faults) && dir.disk.parent == bound && ArtifactAt(dir.disk, temporary) == Some(prepared)
              && file !in dir.disk.names && Held(dir.disk, q)
            ==> ok
  {
    ok := dir.RequireArtifact(temporary, prepared, bound);
    if !ok { return; }
    ok := dir.RequireAbsent(file, bound);
    if !ok { return; }
    ok := CheckHeld(dir, q, bound);
  }

  /** The checks around the hook, then the link itself. */
  method PlacePrepared(dir: Directory, ghost s: Session, temporary: string, prepared: Artifact, file: string,
                       q: Option<Quarantined>, bound: nat)
    returns (ok: bool)
    requires dir.Inv(s) && s.parent == bound && s.file == file
    requires Some(prepared.snapshot.inode) == s.temp
    requires prepared == Artifact(Snapshot(prepared.snapshot.inode, s.bytes, s.mode), 1)
    modifies dir
    ensures Later(old(dir.faults), dir.faults)
    ensures dir.Inv(s) && Extends(old(dir.trace), dir.trace)
    ensures dir.quiet && !ok ==> dir.disk == old(dir.disk)
    ensures dir.quiet && ok ==>
              && ArtifactAt(old(dir.disk), temporary) == Some(prepared) && file !in old(dir.disk).names
              && dir.disk == Linked(old(dir.disk), temporary, file)
    ensures dir.quiet && dir.faults == old(dir.faults) && old(dir.disk.parent) == bound
              && ArtifactAt(old(dir.disk), temporary) == Some(prepared) && file !in old(dir.disk).names
              && Held(old(dir.disk), q)
            ==> ok
  {
    hide AllSafe, Anchored, Committed;
    ok := ValidatePreInstall(dir, temporary, prepared, file, q, bound);
    if ok {
      var threw := dir.Interfere(s);
      ok := !threw;
    }
    if ok {
      ok := ValidatePreInstall(dir, temporary, prepared, file, q, bound);
    }
    if ok {
      ok := LinkOwned(dir, s, temporary, file);
    }
  }

  /** Link the prepared file at the absent target. On any failure the original is restored. */
  method LinkPrepared(dir: Directory, ghost s: Session, temporary: string, prepared: Artifact, file: string,
                      expected: Option<Snapshot>, q: Option<Quarantined>, bound: nat, v: Uuid)
    returns (e: Option<Thrown>)
    requires dir.Inv(s) && s.parent == bound && s.file == file && s.expected == expected
    requires Some(prepared.snapshot.inode) == s.temp
    requires prepared == Artifact(Snapshot(prepared.snapshot.inode, s.bytes, s.mode), 1)
    requires QuarantineFits(file, expected, q)
    requires dir.quiet && q.Some? ==> file !in dir.disk.names
    modifies dir
    ensures Later(old(dir.faults), dir.faults)
    ensures dir.Inv(s) && Extends(old(dir.trace), dir.trace)
    ensures e.Some? ==> !e.value.CommittedMutation?
    ensures e.Some? && dir.quiet && dir.faults.count <= old(dir.faults).count + 1
              && old(dir.disk.parent) == bound && ArtifactAt(old(dir.disk), temporary) == Some(prepared)
              && file !in old(dir.disk).names && Held(old(dir.disk), q)
            ==> e.value.Plain?
    ensures e.Some? && dir.quiet && dir.faults.count <= old(dir.faults).count + 1
              && old(dir.disk.parent) == bound && ArtifactAt(old(dir.disk), temporary) == Some(prepared)
              && file !in old(dir.disk).names
              && (q.Some? ==> && ArtifactAt(old(dir.disk), q.value.name) == Some(q.value.artifact)
                              && DisposalName(q.value.name, v) !in old(dir.disk).names)
            ==> && e.value == Plain([])
                && dir.disk == if q.Some? then PutBack(old(dir.disk), q.value.name, file) else old(dir.disk)
    ensures e.None? && dir.quiet ==>
              && ArtifactAt(old(dir.disk), temporary) == Some(prepared)
              && file !in old(dir.disk).names
              && dir.disk == Linked(old(dir.disk), temporary, file)
    ensures e.Some? && dir.quiet && q.None? ==> dir.disk == old(dir.disk) && e.value.Plain?
    ensures e.Some? && dir.quiet && q.Some? ==>
              && Elsewhere(old(dir.disk), dir.disk, {file, q.value.name, DisposalName(q.value.name, v)})
              && Shows(dir.disk, file, e.value, expected, prepared.snapshot)
    ensures dir.quiet && dir.faults == old(dir.faults) && old(dir.disk.parent) == bound
              && ArtifactAt(old(dir.disk), temporary) == Some(prepared)
              && file !in old(dir.disk).names
              && Held(old(dir.disk), q)
            ==> e.None?
  {
    hide AllSafe, Anchored, Committed, Recoverable, Recognise;
    var ok := PlacePrepared(dir, s, temporary, prepared, file, q, bound);
    if ok {
      return None;
    }
    if q.Some? {
      var t := RestoreAndThrow(dir, s, file, expected.value, q.value, [], bound, v);
      return Some(t);
    }
    return Some(Plain([]));
  }

  method ValidateInstalled(dir: Directory, temporary: string, linked: Artifact, file: string,
                           q: Option<Quarantined>, bound: nat)
    returns (ok: bool)
    modifies dir`faults
    ensures LaterAt(old(dir.faults), dir.faults, |dir.trace|)
    ensures ok ==> && dir.disk.parent == bound && ArtifactAt(dir.disk, temporary) == Some(linked)
                   && ArtifactAt(dir.disk, file) == Some(linked)
                   && Held(dir.disk, q)
    ensures dir.faults == old(dir.faults) && dir.disk.parent == bound && ArtifactAt(dir.disk, temporary) == Some(linked)
              && ArtifactAt(dir.disk, file) == Some(linked)
              && Held(dir.disk, q)
            ==> ok
  {
    ok := dir.RequireArtifact(temporary, linked, bound);
    if !ok { return; }
    ok := dir.RequireArtifact(file, linked, bound);
    if !ok { return; }
    ok := CheckHeld(dir, q, bound);
  }

  /** The report that the original is still in quarantine. */
  function Displaced(q: Option<Quarantined>): seq<CleanupFailure> {
    if q.None? then [] else [CleanupFailure(Some(q.value.name))]
  }

  method DisplacedOriginal(dir: Directory, q: Option<Quarantined>, bound: nat) returns (failures: seq<CleanupFailure>)
    modifies dir`faults
    ensures LaterAt(old(dir.faults), dir.faults, |dir.trace|)
    ensures dir.faults == old(dir.faults) && dir.disk.parent == bound && Held(dir.disk, q) ==> failures == Displaced(q)
  {
    if q.None? {
      return [];
    }
    var candidates := [(q.value.name, q.value.artifact.snapshot)];
    assert Held(dir.disk, q) ==> Holds(dir.disk, candidates[0]);
    var f := BindOwnedCleanupFailure(dir, candidates, bound);
    return [f];
  }

  /** Hooks and validations after the link. The link was the commit boundary for the caller. */
  method ConfirmInstalled(dir: Directory, ghost s: Session, temporary: string, linked: Artifact, file: string,
                          q: Option<Quarantined>, bound: nat)
    returns (e: Option<Thrown>)
    requires dir.Inv(s)
    modifies dir
    ensures Later(old(dir.faults), dir.faults)
    ensures dir.Inv(s) && Extends(old(dir.trace), dir.trace)
    ensures dir.quiet ==> dir.disk == old(dir.disk)
    ensures e.Some? ==> e.value.CommittedMutation?
    ensures e.None? ==> && dir.disk.parent == bound && ArtifactAt(dir.disk, temporary) == Some(linked)
                        && ArtifactAt(dir.disk, file) == Some(linked)
                        && Held(dir.disk, q)
    ensures dir.quiet && dir.faults == old(dir.faults) && old(dir.disk.parent) == bound
              && ArtifactAt(old(dir.disk), temporary) == Some(linked)
              && ArtifactAt(old(dir.disk), file) == Some(linked)
              && Held(old(dir.disk), q)
            ==> e.None?
    ensures dir.quiet && dir.faults.count <= old(dir.faults).count + 1 && old(dir.disk.parent) == bound
              && ArtifactAt(old(dir.disk), temporary) == Some(linked) && ArtifactAt(old(dir.disk), file) == Some(linked)
              && Held(old(dir.disk), q) && e.Some?
            ==> e.value == CommittedMutation(Displaced(q))
  {
    hide AllSafe, Recoverable, Anchored, Committed;
    var threw := dir.Interfere(s);
    var ok := !threw;
    if ok {
      ok := ValidateInstalled(dir, temporary, linked, file, q, bound);
    }
    if ok {
      threw := dir.Interfere(s);
      ok := !threw;
    }
    if ok {
      ok := ValidateInstalled(dir, temporary, linked, file, q, bound);
    }
    if ok {
      return None;
    }
    var displaced := DisplacedOriginal(dir, q, bound);
    return Some(CommittedMutation(displaced));
  }

  datatype UnlinkResult = Unlinked(cleanup: seq<CleanupFailure>) | UnlinkThrew(error: Thrown)

  /** The link count that the temporary name shows, when it still holds the new file. */
  method ObserveTemporary(dir: Directory, temporary: string, expected: Artifact, before: nat, bound: nat)
    returns (links: nat, failures: seq<CleanupFailure>)
    modifies dir`faults
    ensures LaterAt(old(dir.faults), dir.faults, |dir.trace|)
    ensures dir.faults == old(dir.faults) && dir.disk.parent == bound
              && SnapshotAt(dir.disk, temporary) == Some(expected.snapshot)
            ==> failures == [] && ArtifactAt(dir.disk, temporary) == Some(WithLinkCount(expected, links))
    ensures links != before ==> ArtifactAt(dir.disk, temporary) == Some(WithLinkCount(expected, links))
    ensures failures == [] || failures == [CleanupFailure(None)]
  {
    links, failures := before, [];
    var r := dir.Read(temporary, bound);
    if r.Unreadable? {
      failures := [CleanupFailure(None)];
    } else if r.Found? && r.artifact.snapshot == expected.snapshot {
      links := r.artifact.links;
    }
  }

  lemma HiddenIsGuarded(s: Session, t: seq<Step>, d: Disk, q: Option<Quarantined>, name: string)
    requires Hidden(s, d, q) && s.kind.Previous? && Recognise(s.file, name) == Some(Rollback)
    ensures Guarded(s, t, d, name)
  {
  }

  lemma CleanupElsewhere(before: Disk, after: Disk, name: string, disposal: string, file: string, touched: set<string>)
    requires CleanupEffect(before, after, name, disposal) && name in touched && disposal in touched
    requires file !in before.names && file != disposal
    ensures Elsewhere(before, after, touched) && file !in after.names
  {
  }

  lemma RemovedAgain(d: Disk, a: string, b: string, c: string)
    requires a in d.names && b !in d.names && a != c && b != c
    ensures Removed(Renamed(d, a, b), b) == Removed(d, a)
    ensures c !in d.names ==> c !in Renamed(d, a, b).names
  {
  }

  /** Take the installed file away from the target again. Until its rename succeeds nothing changes. */
  method ConditionalUnlinkInstalled(dir: Directory, ghost s: Session, temporary: string, file: string, linked: Artifact,
                                    ghost q: Option<Quarantined>, bound: nat, u: Uuid, v: Uuid)
    returns (r: UnlinkResult, links: nat)
    requires dir.Inv(s) && s.parent == bound && s.file == file && s.kind.Previous?
    requires Some(linked.snapshot.inode) == s.temp && linked == Artifact(Snapshot(linked.snapshot.inode, s.bytes, s.mode), 2)
    requires dir.quiet ==> Hidden(s, dir.disk, q)
    modifies dir
    ensures Later(old(dir.faults), dir.faults)
    ensures dir.Inv(s) && Extends(old(dir.trace), dir.trace)
    ensures r.UnlinkThrew? ==> !r.error.CommittedMutation?
    ensures dir.quiet && r.UnlinkThrew? && r.error.Plain? ==> dir.disk == old(dir.disk)
    ensures dir.quiet && (r.Unlinked? || !r.error.Plain?) ==>
              && ArtifactAt(old(dir.disk), file) == Some(linked)
              && file !in dir.disk.names
              && Elsewhere(old(dir.disk), dir.disk,
                           {file, QuarantineName(file, u, Rollback), DisposalName(QuarantineName(file, u, Rollback), v)})
    ensures dir.quiet && dir.faults == old(dir.faults) && old(dir.disk.parent) == bound
              && ArtifactAt(old(dir.disk), file) == Some(linked) && QuarantineName(file, u, Rollback) !in old(dir.disk).names
              && DisposalName(QuarantineName(file, u, Rollback), v) !in old(dir.disk).names
            ==> r == Unlinked([]) && links == 1 && dir.disk == Removed(old(dir.disk), file)
  {
    hide SnapshotAt, Recognise, Committed, Guarded, AllSafe, Recoverable, Anchored, Elsewhere, CleanupEffect;
    links := linked.links;
    var rollback := QuarantineName(file, u, Rollback);
    ghost var touched := {file, rollback, DisposalName(rollback, v)};
    CreatedNamesAreLonger(file, u, Rollback);
    QuarantineRecognised(file, u, Rollback);
    CreatedNamesAreLonger(rollback, v, Rollback);
    var ok := MoveToRollback(dir, s, file, linked, q, bound, u);
    if !ok {
      return UnlinkThrew(Plain([])), links;
    }
    ghost var moved := dir.disk;
    if dir.quiet {
      RenamedElsewhere(old(dir.disk), moved, file, rollback, touched);
      MovedArtifact(old(dir.disk), file, rollback, linked);
      RemovedAgain(old(dir.disk), file, rollback, DisposalName(rollback, v));
    }
    var threw := dir.Interfere(s);
    ok := CheckMoved(dir, file, rollback, linked, bound);
    if !ok {
      var f := BindOwnedCleanupFailure(dir, [(rollback, linked.snapshot)], bound);
      var more;
      links, more := ObserveTemporary(dir, temporary, linked, links, bound);
      return UnlinkThrew(CommittedUnlink([f] + more)), links;
    }
    r, links := DisposeRollback(dir, s, temporary, file, linked, q, threw, bound, u, v);
    if dir.quiet {
      CleanupElsewhere(moved, dir.disk, rollback, DisposalName(rollback, v), file, touched);
      ElsewhereTrans(old(dir.disk), moved, dir.disk, touched, touched, touched);
    }
  }

  /** Dispose of the installed file that was taken away, and see how many links it has left. */
  method DisposeRollback(dir: Directory, ghost s: Session, temporary: string, file: string, linked: Artifact,
                         ghost q: Option<Quarantined>, threw: bool, bound: nat, u: Uuid, v: Uuid)
    returns (r: UnlinkResult, links: nat)
    requires dir.Inv(s) && s.parent == bound && s.file == file && s.kind.Previous?
    requires Some(linked.snapshot.inode) == s.temp && linked == Artifact(Snapshot(linked.snapshot.inode, s.bytes, s.mode), 2)
    requires dir.quiet ==> Hidden(s, dir.disk, q)
    modifies dir
    ensures Later(old(dir.faults), dir.faults)
    ensures dir.Inv(s) && Extends(old(dir.trace), dir.trace)
    ensures r.UnlinkThrew? ==> r.error.CommittedUnlink?
    ensures dir.quiet ==> CleanupEffect(old(dir.disk), dir.disk, QuarantineName(file, u, Rollback),
                                        DisposalName(QuarantineName(file, u, Rollback), v))
    ensures dir.quiet && dir.faults == old(dir.faults) && !threw && old(dir.disk.parent) == bound
              && ArtifactAt(old(dir.disk), QuarantineName(file, u, Rollback)) == Some(linked)
              && DisposalName(QuarantineName(file, u, Rollback), v) !in old(dir.disk).names
            ==> r == Unlinked([]) && links == 1 && dir.disk == Removed(old(dir.disk), QuarantineName(file, u, Rollback))
  {
    hide Recognise, Committed, Guarded, AllSafe, Recoverable, Anchored;
    var rollback := QuarantineName(file, u, Rollback);
    CreatedNamesAreLonger(file, u, Rollback);
    QuarantineRecognised(file, u, Rollback);
    if dir.quiet {
      HiddenIsGuarded(s, dir.trace, dir.disk, q, rollback);
    }
    var failure := CleanupBoundArtifact(dir, s, rollback, Some(linked), bound, v);
    var failures := [];
    if failure.None? {
      links := 1;
    } else {
      links, failures := ObserveTemporary(dir, temporary, linked, linked.links, bound);
      failures := [failure.value] + failures;
    }
    var ok := dir.RequireBoundDirectory(bound);
    if !ok || threw {
      return UnlinkThrew(CommittedUnlink(failures)), links;
    }
    return Unlinked(failures), links;
  }

  method MoveToRollback(dir: Directory, ghost s: Session, file: string, linked: Artifact, ghost q: Option<Quarantined>,
                        bound: nat, u: Uuid)
    returns (ok: bool)
    requires dir.Inv(s) && s.parent == bound && s.file == file && s.kind.Previous?
    requires Some(linked.snapshot.inode) == s.temp && linked == Artifact(Snapshot(linked.snapshot.inode, s.bytes, s.mode), 2)
    requires dir.quiet ==> Hidden(s, dir.disk, q)
    modifies dir
    ensures Later(old(dir.faults), dir.faults)
    ensures dir.Inv(s) && Extends(old(dir.trace), dir.trace)
    ensures dir.quiet && !ok ==> dir.disk == old(dir.disk)
    ensures dir.quiet && ok ==>
              && ArtifactAt(old(dir.disk), file) == Some(linked)
              && file in old(dir.disk).names && QuarantineName(file, u, Rollback) !in old(dir.disk).names
              && dir.disk == Renamed(old(dir.disk), file, QuarantineName(file, u, Rollback))
              && Hidden(s, dir.disk, q)
    ensures dir.quiet && dir.faults == old(dir.faults) && old(dir.disk.parent) == bound
              && ArtifactAt(old(dir.disk), file) == Some(linked) && QuarantineName(file, u, Rollback) !in old(dir.disk).names
            ==> ok
  {
    hide Recognise, Committed, AllSafe, Anchored, Begun, QuarantineName;
    var rollback := QuarantineName(file, u, Rollback);
    ok := dir.RequireArtifact(file, linked, bound);
    if !ok { return; }
    ok := dir.RequireAbsent(rollback, bound);
    if !ok { return; }
    var threw := dir.Interfere(s);
    if threw { ok := false; return; }
    ok := dir.RequireArtifact(file, linked, bound);
    if !ok { return; }
    ok := dir.RequireAbsent(rollback, bound);
    if !ok { return; }
    CreatedNamesAreLonger(file, u, Rollback);
    assert dir.quiet ==> Hidden(s, Renamed(dir.disk, file, rollback), q);
    ok := RenameOwned(dir, s, file, rollback);
  }

  datatype Expectation = Expectation(expected: Option<Snapshot>, mustRemainAbsent: seq<string>, expectedParent: Option<nat>)

  /** The random names that one call draws. */
  datatype Uuids = Uuids(temporary: Uuid, quarantine: Uuid, rollback: Uuid,
                         disposeQuarantine: Uuid, disposeRollback: Uuid, disposeTemporary: Uuid)

  function PreviousName(file: string, ids: Uuids): string { QuarantineName(file, ids.quarantine, Previous) }

  function RollbackName(file: string, ids: Uuids): string { QuarantineName(file, ids.rollback, Rollback) }

  /** Every name that an installation may bind or unbind, apart from the temporary one. */
  function Touched(file: string, ids: Uuids): set<string> {
    {file, PreviousName(file, ids), DisposalName(PreviousName(file, ids), ids.disposeQuarantine),
     RollbackName(file, ids), DisposalName(RollbackName(file, ids), ids.disposeRollback)}
  }

  /** Everything that a withdrawal needs is in place. */
  ghost predicate RollBackReady(d: Disk, file: string, linked: Artifact, q: Option<Quarantined>, bound: nat, ids: Uuids) {
    && d.parent == bound && ArtifactAt(d, file) == Some(linked)
    && RollbackName(file, ids) !in d.names && DisposalName(RollbackName(file, ids), ids.disposeRollback) !in d.names
    && (q.Some? ==> && ArtifactAt(d, q.value.name) == Some(q.value.artifact)
                    && q.value.artifact.snapshot.inode != linked.snapshot.inode)
  }

  lemma OriginalStaysHeld(d: World, file: string, linked: Artifact, q: Quarantined)
    requires ArtifactAt(d, file) == Some(linked) && ArtifactAt(d, q.name) == Some(q.artifact)
    requires q.artifact.snapshot.inode != linked.snapshot.inode
    ensures ArtifactAt(Removed(d, file), q.name) == Some(q.artifact)
  {
    RemovedLinks(d, file, d.names[q.name]);
  }

  /** An alternate target appeared: take the new file away again and restore the original. */
  method RollBack(dir: Directory, ghost s: Session, temporary: string, file: string, linked: Artifact,
                  expected: Option<Snapshot>, q: Option<Quarantined>, bound: nat, ids: Uuids)
    returns (e: Thrown, links: nat)
    requires dir.Inv(s) && s.parent == bound && s.file == file && s.kind.Previous? && s.expected == expected
    requires Some(linked.snapshot.inode) == s.temp && linked == Artifact(Snapshot(linked.snapshot.inode, s.bytes, s.mode), 2)
    requires QuarantineFits(file, expected, q)
    requires q.Some? ==> q.value.name == PreviousName(file, ids)
    requires dir.quiet ==> Hidden(s, dir.disk, q) && SnapshotAt(dir.disk, file) == Some(linked.snapshot)
    modifies dir
    ensures Later(old(dir.faults), dir.faults)
    ensures dir.Inv(s) && Extends(old(dir.trace), dir.trace)
    ensures dir.quiet ==> Elsewhere(old(dir.disk), dir.disk, Touched(file, ids))
    ensures dir.quiet ==> Shows(dir.disk, file, e, expected, linked.snapshot)
    ensures dir.quiet && dir.faults == old(dir.faults) && RollBackReady(old(dir.disk), file, linked, q, bound, ids)
            ==> e.Plain? && links == 1
  {
    if dir.quiet && q.Some? && RollBackReady(dir.disk, file, linked, q, bound, ids) {
      OriginalStaysHeld(dir.disk, file, linked, q.value);
    }
    hide AllSafe, Recoverable, Anchored, Committed, Recognise, Elsewhere, LinkCount, Hidden, PutBack, FailuresOf;
    var r;
    r, links := ConditionalUnlinkInstalled(dir, s, temporary, file, linked, q, bound, ids.rollback, ids.disposeRollback);
    if r.UnlinkThrew? && r.error.Plain? {
      var displaced := DisplacedOriginal(dir, q, bound);
      e := CommittedMutation(displaced);
      return;
    }
    var failures := if r.Unlinked? then r.cleanup else r.error.displaced;
    if q.None? {
      e := Plain(failures);
      return;
    }
    ghost var between := dir.disk;
    e := RestoreAndThrow(dir, s, file, expected.value, q.value, failures, bound, ids.disposeQuarantine);
    if dir.quiet {
      ElsewhereTrans(old(dir.disk), between, dir.disk,
                     {file, RollbackName(file, ids), DisposalName(RollbackName(file, ids), ids.disposeRollback)},
                     {file, q.value.name, DisposalName(q.value.name, ids.disposeQuarantine)},
                     Touched(file, ids));
    }
  }

  lemma ReadyIsBound(d: Disk, file: string, linked: Artifact, q: Option<Quarantined>, bound: nat, ids: Uuids)
    ensures RollBackReady(d, file, linked, q, bound, ids) ==> d.parent == bound
  {
  }

  /** Look for the alternates that must not exist, after the installation. */
  method CheckAlternates(dir: Directory, ghost s: Session, alternates: seq<string>, temporary: string, file: string,
                         linked: Artifact, expected: Option<Snapshot>, q: Option<Quarantined>, bound: nat, ids: Uuids)
    returns (e: Option<Thrown>, links: nat)
    requires dir.Inv(s) && s.parent == bound && s.file == file && s.kind.Previous? && s.expected == expected
    requires Some(linked.snapshot.inode) == s.temp && linked == Artifact(Snapshot(linked.snapshot.inode, s.bytes, s.mode), 2)
    requires QuarantineFits(file, expected, q)
    requires q.Some? ==> q.value.name == PreviousName(file, ids)
    requires dir.quiet ==> Hidden(s, dir.disk, q) && SnapshotAt(dir.disk, file) == Some(linked.snapshot)
    modifies dir
    ensures Later(old(dir.faults), dir.faults)
    ensures dir.Inv(s) && Extends(old(dir.trace), dir.trace)
    ensures e.None? ==> dir.disk == old(dir.disk) && links == linked.links
                        && forall k | 0 <= k < |alternates| :: alternates[k] !in dir.disk.names
    ensures dir.quiet && e.Some? ==> Elsewhere(old(dir.disk), dir.disk, Touched(file, ids))
    ensures dir.quiet && e.Some? ==> Shows(dir.disk, file, e.value, expected, linked.snapshot)
    ensures dir.quiet && dir.faults == old(dir.faults) && old(dir.disk.parent) == bound
              && (forall k | 0 <= k < |alternates| :: alternates[k] !in old(dir.disk).names)
            ==> e.None?
    ensures dir.quiet && e.Some? && (forall k | 0 <= k < |alternates| :: alternates[k] !in old(dir.disk).names) ==>
              e.value.CommittedMutation?
    ensures dir.quiet && dir.faults == old(dir.faults) && RollBackReady(old(dir.disk), file, linked, q, bound, ids)
              && (exists k | 0 <= k < |alternates| :: alternates[k] in old(dir.disk).names)
            ==> e.Some? && e.value.Plain? && links == 1
    ensures dir.quiet && e.Some? && (forall k | 0 <= k < |alternates| :: alternates[k] !in old(dir.disk).names) ==>
              dir.disk == old(dir.disk) && links == linked.links
    ensures dir.quiet && dir.faults.count <= old(dir.faults).count + 1 && old(dir.disk.parent) == bound && Held(old(dir.disk), q)
              && e.Some? && (forall k | 0 <= k < |alternates| :: alternates[k] !in old(dir.disk).names)
            ==> e.value == CommittedMutation(Displaced(q))
  {
    hide AllSafe, Recoverable, Anchored, Committed, Recognise, Elsewhere, Touched, RollBackReady;
    links := linked.links;
    ReadyIsBound(dir.disk, file, linked, q, bound, ids);
    ElsewhereSelf(dir.disk, Touched(file, ids));
    for k := 0 to |alternates|
      invariant dir.disk == old(dir.disk) && dir.trace == old(dir.trace)
      invariant Later(old(dir.faults), dir.faults)
      invariant forall j | 0 <= j < k :: alternates[j] !in dir.disk.names
    {
      var r := dir.Read(alternates[k], bound);
      if r.Unreadable? {
        var displaced := DisplacedOriginal(dir, q, bound);
        return Some(CommittedMutation(displaced)), links;
      }
      if r.Found? {
        var t;
        t, links := RollBack(dir, s, temporary, file, linked, expected, q, bound, ids);
        return Some(t), links;
      }
    }
    return None, links;
  }

  /** The target is the planned one and no alternate exists. */
  method AssertFileExpectation(dir: Directory, file: string, ex: Expectation, bound: nat) returns (ok: bool)
    modifies dir`faults
    ensures LaterAt(old(dir.faults), dir.faults, |dir.trace|)
    ensures ok ==> SnapshotAt(dir.disk, file) == ex.expected
                   && forall k | 0 <= k < |ex.mustRemainAbsent| :: ex.mustRemainAbsent[k] !in dir.disk.names
    ensures dir.faults == old(dir.faults) && dir.disk.parent == bound && SnapshotAt(dir.disk, file) == ex.expected
              && (forall k | 0 <= k < |ex.mustRemainAbsent| :: ex.mustRemainAbsent[k] !in dir.disk.names)
            ==> ok
  {
    var r := dir.Read(file, bound);
    ok := match r
      case Unreadable => false
      case Missing => ex.expected.None?
      case Found(a) => Some(a.snapshot) == ex.expected;
    if !ok { return; }
    for k := 0 to |ex.mustRemainAbsent|
      invariant LaterAt(old(dir.faults), dir.faults, |dir.trace|)
      invariant forall j | 0 <= j < k :: ex.mustRemainAbsent[j] !in dir.disk.names
    {
      var alternate := dir.Read(ex.mustRemainAbsent[k], bound);
      if alternate != Missing {
        return false;
      }
    }
  }
}
