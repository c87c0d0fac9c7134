/** Disposal of an artifact that the call owns, and restoration of a quarantined target. */
module AtomicCleanup {
  import opened Wrappers
  import opened AtomicNames
  import opened Disks
  import opened Directories

  /** A cleanup that failed, with the name of the owned artifact when its binding was proven afterwards. */
  datatype CleanupFailure = CleanupFailure(path: Option<string>)

  datatype Thrown =
    | Plain(cleanup: seq<CleanupFailure>)            // nothing was committed
    | CommittedUnlink(displaced: seq<CleanupFailure>)  // the target was taken away
    | CommittedMutation(left: seq<CleanupFailure>)   // the new file is at the target

  /** The failures that an error lists. */
  function FailuresOf(e: Thrown): seq<CleanupFailure> {
    match e
    case Plain(c) => c
    case CommittedUnlink(c) => c
    case CommittedMutation(c) => c
  }

  /** Every one of these names that is still bound is listed as a failure. */
  ghost predicate Reported(names: set<string>, d: Disk, failures: seq<CleanupFailure>) {
    forall n | n in names && n in d.names :: CleanupFailure(Some(n)) in failures
  }

  function WithLinkCount(a: Artifact, links: nat): Artifact {
    a.(links := links)
  }

  /** The artifact belongs to the call; the original may be let go only while another link to it
      exists, or after the commit. */
  ghost predicate MayClean(s: Session, t: seq<Step>, a: Artifact) {
    || (Some(a.snapshot.inode) == s.temp && (a.snapshot == Snapshot(a.snapshot.inode, s.bytes, s.mode) || !Begun(s, t)))
    || (s.expected == Some(a.snapshot) && (a.links >= 2 || Committed(t)))
  }

  ghost predicate IsDeletedName(file: string, name: string) {
    exists u: Uuid :: name == QuarantineName(file, u, Deleted)
  }

  /** Losing the binding of `name` does not hide the original from recovery. */
  ghost predicate Guarded(s: Session, t: seq<Step>, d: Disk, name: string) {
    || s.file !in s.start.names
    || s.file in d.names
    || (exists n :: n != name && ShelteredAs(s, d, n))
    || (&& s.kind.Deleted? && Committed(t)
        && name in d.names && d.names[name] == s.start.names[s.file] && IsDeletedName(s.file, name))
  }

  lemma ShelterStays(s: Session, d: Disk, e: Disk, n: string)
    requires ShelteredAs(s, d, n) && n in e.names && e.names[n] == d.names[n]
    ensures Sheltered(s, e)
  {
    assert ShelteredAs(s, e, n);
  }

  /** The cleanup name of a deleted original shelters it, unless the basename is all dots. */
  lemma DisposalShelters(s: Session, d: World, name: string, v: Uuid)
    requires s.file in s.start.names && s.kind.Deleted? && IsDeletedName(s.file, name) && !AllDots(s.file)
    requires name in d.names && d.names[name] == s.start.names[s.file] && DisposalName(name, v) !in d.names
    ensures Sheltered(s, Renamed(d, name, DisposalName(name, v)))
  {
    hide Recognise;
    var u: Uuid :| name == QuarantineName(s.file, u, Deleted);
    DisposedQuarantineRecognised(s.file, u, Deleted, v);
    CreatedNamesAreLonger(s.file, u, Deleted);
    CreatedNamesAreLonger(name, v, Deleted);
    assert ShelteredAs(s, Renamed(d, name, DisposalName(name, v)), DisposalName(name, v));
  }

  lemma GuardedRename(s: Session, t: seq<Step>, d: World, name: string, v: Uuid)
    requires name in d.names && name != s.file && Guarded(s, t, d, name)
    requires DisposalName(name, v) !in d.names
    ensures Recoverable(s, t, Renamed(d, name, DisposalName(name, v)))
  {
    hide DisposalName, IsDeletedName, AllDots, Committed, Released, Sheltered;
    if s.file in s.start.names && s.file !in d.names {
      if n :| n != name && ShelteredAs(s, d, n) {
        ShelterStays(s, d, Renamed(d, name, DisposalName(name, v)), n);
      } else if !AllDots(s.file) {
        DisposalShelters(s, d, name, v);
      }
    }
  }

  lemma GuardedUnlink(s: Session, t: seq<Step>, t': seq<Step>, d: World, name: string, v: Uuid)
    requires name in d.names && name != s.file && Guarded(s, t, d, name)
    requires DisposalName(name, v) !in d.names && DisposalName(name, v) != s.file
    requires Extends(t, t') && Released(t')
    ensures Recoverable(s, t', Removed(Renamed(d, name, DisposalName(name, v)), DisposalName(name, v)))
  {
    hide DisposalName, IsDeletedName, AllDots, Committed, Released, Sheltered;
    if s.file in s.start.names && s.file !in d.names {
      if n :| n != name && ShelteredAs(s, d, n) {
        ShelterStays(s, d, Removed(Renamed(d, name, DisposalName(name, v)), DisposalName(name, v)), n);
      }
    }
  }

  /** With quiet hooks a cleanup leaves the disk as it was, or moves the artifact to its disposal name,
      or removes it; every other name is untouched. */
  ghost predicate CleanupEffect(before: Disk, after: Disk, name: string, disposal: string) {
    || after == before
    || (name in before.names && disposal !in before.names && after == Renamed(before, name, disposal))
    || (name in before.names && after == Removed(before, name))
  }

  /** The candidate name holds the exact inode, bytes and mode. */
  ghost predicate Holds(d: Disk, candidate: (string, Snapshot)) {
    SnapshotAt(d, candidate.0) == Some(candidate.1)
  }

  /** Report a recovery name only after rebinding the exact inode, bytes and mode there; without faults the first that holds
      them is reported. */
  method BindOwnedCleanupFailure(dir: Directory, candidates: seq<(string, Snapshot)>, bound: nat)
    returns (failure: CleanupFailure)
    modifies dir`faults
    ensures LaterAt(old(dir.faults), dir.faults, |dir.trace|)
    ensures failure.path.Some? ==> exists c | c in candidates :: c.0 == failure.path.value && Holds(dir.disk, c)
    ensures dir.faults == old(dir.faults) && dir.disk.parent == bound ==>
              && (failure.path.None? ==> forall c | c in candidates :: !Holds(dir.disk, c))
              && (forall k: nat | k < |candidates| && Holds(dir.disk, candidates[k])
                                  && (forall j | 0 <= j < k :: !Holds(dir.disk, candidates[j])) ::
                    failure.path == Some(candidates[k].0))
  {
    for k := 0 to |candidates|
      invariant LaterAt(old(dir.faults), dir.faults, |dir.trace|)
      invariant dir.faults == old(dir.faults) && dir.disk.parent == bound ==>
                  forall j | 0 <= j < k :: !Holds(dir.disk, candidates[j])
    {
      var r := dir.Read(candidates[k].0, bound);
      if r.Found? && r.artifact.snapshot == candidates[k].1 {
        assert candidates[k] in candidates && Holds(dir.disk, candidates[k]);
        return CleanupFailure(Some(candidates[k].0));
      }
    }
    return CleanupFailure(None);
  }

  lemma DisposalSides(s: Session, d: World, name: string, v: Uuid)
    requires |s.file| <= |name|
    ensures DisposalName(name, v) != s.file
    ensures name in d.names && DisposalName(name, v) !in d.names ==>
              Removed(Renamed(d, name, DisposalName(name, v)), DisposalName(name, v)) == Removed(d, name)
  {
  }

  /** A rename of an owned name to an absent one. */
  method RenameOwned(dir: Directory, ghost s: Session, a: string, b: string) returns (ok: bool)
    requires dir.Inv(s) && dir.disk.parent == s.parent && MayRename(s, dir.trace, dir.disk, a, b)
    requires dir.quiet ==> Recoverable(s, dir.trace, Renamed(dir.disk, a, b))
    modifies dir
    ensures Later(old(dir.faults), dir.faults)
    ensures dir.Inv(s) && Extends(old(dir.trace), dir.trace)
    ensures a != s.file ==> (Begun(s, dir.trace) <==> Begun(s, old(dir.trace)))
    ensures dir.disk == if ok then Renamed(old(dir.disk), a, b) else old(dir.disk)
    ensures ok ==> dir.trace == old(dir.trace) + [Step(Action.Rename(a, b), old(dir.disk), dir.disk)]
    ensures dir.quiet && dir.faults == old(dir.faults) ==> ok
  {
    ghost var d, t := dir.disk, dir.trace;
    RenameIsSafe(s, t, d, a, b);
    ghost var st := Step(Action.Rename(a, b), d, Renamed(d, a, b));
    CommittedGrows(t, st);
    AnchorHolds(s, t, st);
    BegunGrows(s, t, st);
    hide MayRename, Recoverable, AllSafe, Begun, Anchored, Committed;
    ok := dir.Rename(a, b);
  }

  /** Another link to an owned file, at an absent name. */
  method LinkOwned(dir: Directory, ghost s: Session, a: string, b: string) returns (ok: bool)
    requires dir.Inv(s) && dir.disk.parent == s.parent && MayLink(s, dir.trace, dir.disk, a, b)
    requires dir.quiet ==> Recoverable(s, dir.trace, Linked(dir.disk, a, b))
    modifies dir
    ensures Later(old(dir.faults), dir.faults)
    ensures dir.Inv(s) && Extends(old(dir.trace), dir.trace)
    ensures dir.disk == if ok then Linked(old(dir.disk), a, b) else old(dir.disk)
    ensures dir.quiet && dir.faults == old(dir.faults) ==> ok
  {
    ghost var d, t := dir.disk, dir.trace;
    LinkIsSafe(s, t, d, a, b);
    CommittedGrows(t, Step(Action.Link(a, b), d, Linked(d, a, b)));
    AnchorHolds(s, t, Step(Action.Link(a, b), d, Linked(d, a, b)));
    hide Recoverable, AllSafe, Begun, Anchored, Committed, Owned, Steady;
    ok := dir.Link(a, b);
  }

  /** Removal of an owned name. */
  method UnlinkOwned(dir: Directory, ghost s: Session, a: string) returns (ok: bool)
    requires dir.Inv(s) && dir.disk.parent == s.parent && MayUnlink(s, dir.trace, dir.disk, a)
    requires Original(s) == Some(dir.disk.names[a]) ==> LinkCount(dir.disk, dir.disk.names[a]) >= 2 || Committed(dir.trace)
    requires dir.quiet ==> Recoverable(s, dir.trace + [Step(Action.Unlink(a), dir.disk, Removed(dir.disk, a))], Removed(dir.disk, a))
    modifies dir
    ensures Later(old(dir.faults), dir.faults)
    ensures dir.Inv(s) && Extends(old(dir.trace), dir.trace)
    ensures dir.disk == if ok then Removed(old(dir.disk), a) else old(dir.disk)
    ensures dir.quiet && dir.faults == old(dir.faults) ==> ok
  {
    ghost var d, t := dir.disk, dir.trace;
    UnlinkIsSafe(s, t, d, a);
    CommittedGrows(t, Step(Action.Unlink(a), d, Removed(d, a)));
    AnchorHolds(s, t, Step(Action.Unlink(a), d, Removed(d, a)));
    hide Recoverable, AllSafe, Begun, Anchored, Committed, Steady;
    ok := dir.Unlink(a);
  }

  /** First half of a cleanup: check the artifact, then take it to its absent disposal name. */
  method MoveToDisposal(dir: Directory, ghost s: Session, name: string, expected: Artifact, bound: nat, v: Uuid)
    returns (ok: bool)
    requires dir.Inv(s) && s.parent == bound && name != s.file
    requires MayClean(s, dir.trace, expected)
    requires dir.quiet ==> Guarded(s, dir.trace, dir.disk, name)
    modifies dir
    ensures Later(old(dir.faults), dir.faults)
    ensures dir.Inv(s) && Extends(old(dir.trace), dir.trace)
    ensures Begun(s, dir.trace) <==> Begun(s, old(dir.trace))
    ensures dir.disk.parent == old(dir.disk.parent)
    ensures if !ok then dir.disk == old(dir.disk) else
              && ArtifactAt(old(dir.disk), name) == Some(expected)
              && DisposalName(name, v) !in old(dir.disk).names
              && dir.disk == Renamed(old(dir.disk), name, DisposalName(name, v))
    ensures dir.quiet && dir.faults == old(dir.faults) && old(dir.disk.parent) == bound
              && ArtifactAt(old(dir.disk), name) == Some(expected)
              && DisposalName(name, v) !in old(dir.disk).names
            ==> ok
  {
    ok := dir.RequireArtifact(name, expected, bound);
    if !ok { return; }
    ok := dir.RequireAbsent(DisposalName(name, v), bound);
    if !ok { return; }
    if dir.quiet {
      GuardedRename(s, dir.trace, dir.disk, name, v);
    }
    ok := RenameOwned(dir, s, name, DisposalName(name, v));
  }

  /** The steps of a cleanup, up to the first check or call that fails. */
  method DisposeArtifact(dir: Directory, ghost s: Session, name: string, expected: Artifact, bound: nat, v: Uuid)
    returns (ok: bool)
    requires dir.Inv(s) && s.parent == bound && name != s.file && |s.file| <= |name|
    requires MayClean(s, dir.trace, expected)
    requires dir.quiet ==> Guarded(s, dir.trace, dir.disk, name)
    modifies dir
    ensures Later(old(dir.faults), dir.faults)
    ensures dir.Inv(s) && Extends(old(dir.trace), dir.trace)
    ensures dir.quiet ==> CleanupEffect(old(dir.disk), dir.disk, name, DisposalName(name, v))
    ensures dir.quiet && dir.disk != old(dir.disk) ==> ArtifactAt(old(dir.disk), name) == Some(expected)
    ensures dir.quiet && ok ==> name in old(dir.disk).names && dir.disk == Removed(old(dir.disk), name)
    ensures dir.quiet && dir.faults == old(dir.faults) && old(dir.disk.parent) == bound
              && ArtifactAt(old(dir.disk), name) == Some(expected)
              && DisposalName(name, v) !in old(dir.disk).names
            ==> ok
  {
    hide Recognise, AllSafe, Anchored, Begun, Recoverable, Guarded, MayClean, Committed, LinkCount, SnapshotAt;
    ghost var start, t := dir.disk, dir.trace;
    ok := MoveToDisposal(dir, s, name, expected, bound, v);
    if !ok { return; }
    DisposalSides(s, start, name, v);
    MovedArtifact(start, name, DisposalName(name, v), expected);
    ok := RemoveMoved(dir, s, start, t, name, expected, bound, v);
  }

  /** Second half of a cleanup: check that the artifact arrived, let the hook run, check again and remove it. */
  method RemoveMoved(dir: Directory, ghost s: Session, ghost start: World, ghost t: seq<Step>, name: string,
                     expected: Artifact, bound: nat, v: Uuid)
    returns (ok: bool)
    requires dir.Inv(s) && s.parent == bound && name != s.file && |s.file| <= |name|
    requires MayClean(s, t, expected) && Extends(t, dir.trace) && (Begun(s, dir.trace) <==> Begun(s, t))
    requires name in start.names && DisposalName(name, v) !in start.names
    requires dir.disk == Renamed(start, name, DisposalName(name, v))
    requires ArtifactAt(dir.disk, DisposalName(name, v)) == Some(expected)
    requires dir.quiet ==> Guarded(s, t, start, name)
    modifies dir
    ensures Later(old(dir.faults), dir.faults)
    ensures dir.Inv(s) && Extends(old(dir.trace), dir.trace)
    ensures dir.quiet ==> dir.disk in {old(dir.disk), Removed(start, name)}
    ensures dir.quiet && ok ==> dir.disk == Removed(start, name)
    ensures dir.quiet && dir.faults == old(dir.faults) && old(dir.disk.parent) == bound ==> ok
  {
    hide Recognise, AllSafe, Anchored, Begun, Recoverable, Guarded, MayClean, MayUnlink, Committed, LinkCount, SnapshotAt;
    var disposal := DisposalName(name, v);
    DisposalSides(s, start, name, v);
    ok := CheckMoved(dir, name, disposal, expected, bound);
    if !ok { return; }
    ghost var t1, d1 := dir.trace, dir.disk;
    var threw := dir.Interfere(s);
    if threw { ok := false; return; }
    ok := CheckMoved(dir, name, disposal, expected, bound);
    if !ok { return; }
    StillCleanable(s, t, t1, d1, dir.disk, disposal, expected);
    if dir.quiet {
      var st := Step(Action.Unlink(disposal), dir.disk, Removed(dir.disk, disposal));
      CommittedGrows(dir.trace, st);
      GuardedUnlink(s, t, dir.trace + [st], start, name, v);
    }
    ok := UnlinkOwned(dir, s, disposal);
    if !ok { return; }
    ok := dir.RequireAbsent(disposal, bound);
  }

  /** An artifact that may be cleaned, found unchanged after the hook, may be removed. */
  lemma StillCleanable(s: Session, t0: seq<Step>, t1: seq<Step>, before: Disk, d: Disk, n: string, a: Artifact)
    requires MayClean(s, t0, a) && (Begun(s, t1) <==> Begun(s, t0)) && Extends(t0, t1)
    requires ArtifactAt(before, n) == Some(a) && ArtifactAt(d, n) == Some(a)
    ensures MayUnlink(s, t1 + [Step(Interference, before, d)], d, n)
    ensures Original(s) == Some(d.names[n]) ==>
              LinkCount(d, d.names[n]) >= 2 || Committed(t1 + [Step(Interference, before, d)])
  {
    BegunGrows(s, t1, Step(Interference, before, d));
    CommittedGrows(t1, Step(Interference, before, d));
  }

  lemma MovedArtifact(d: World, name: string, disposal: string, expected: Artifact)
    requires ArtifactAt(d, name) == Some(expected) && disposal !in d.names
    ensures ArtifactAt(Renamed(d, name, disposal), disposal) == Some(expected)
    ensures name !in Renamed(d, name, disposal).names
  {
    RenamedLinks(d, name, disposal, d.names[name]);
  }

  /** After a rename: the moved artifact is at its new name, and its old name is free. */
  method CheckMoved(dir: Directory, source: string, destination: string, moved: Artifact, bound: nat)
    returns (ok: bool)
    modifies dir`faults
    ensures LaterAt(old(dir.faults), dir.faults, |dir.trace|)
    ensures ok ==> dir.disk.parent == bound && ArtifactAt(dir.disk, destination) == Some(moved) && source !in dir.disk.names
    ensures dir.faults == old(dir.faults) && dir.disk.parent == bound && ArtifactAt(dir.disk, destination) == Some(moved)
              && source !in dir.disk.names
            ==> ok
  {
    ok := dir.RequireArtifact(destination, moved, bound);
    if ok {
      ok := dir.RequireAbsent(source, bound);
    }
  }

  /** Remove an artifact by way of a disposal name, checking its exact binding before each step. After a single fault the
      artifact is gone, or the name that it was left under is reported. */
  method CleanupBoundArtifact(dir: Directory, ghost s: Session, name: string, expected: Option<Artifact>, bound: nat, v: Uuid)
    returns (failure: Option<CleanupFailure>)
    requires dir.Inv(s) && s.parent == bound && name != s.file && |s.file| <= |name|
    requires expected.Some? ==> MayClean(s, dir.trace, expected.value)
    requires dir.quiet && expected.Some? ==> Guarded(s, dir.trace, dir.disk, name)
    modifies dir
    ensures Later(old(dir.faults), dir.faults)
    ensures dir.Inv(s) && Extends(old(dir.trace), dir.trace)
    ensures dir.quiet ==> CleanupEffect(old(dir.disk), dir.disk, name, DisposalName(name, v))
    ensures dir.quiet && dir.disk != old(dir.disk) ==> expected.Some? && ArtifactAt(old(dir.disk), name) == expected
    ensures dir.quiet && failure.None? ==> name in old(dir.disk).names && dir.disk == Removed(old(dir.disk), name)
    ensures failure.Some? && failure.value.path.Some? ==>
              && expected.Some?
              && failure.value.path.value in {name, DisposalName(name, v)}
              && SnapshotAt(dir.disk, failure.value.path.value) == Some(expected.value.snapshot)
    ensures dir.quiet && dir.faults == old(dir.faults) && old(dir.disk.parent) == bound && expected.Some?
              && ArtifactAt(old(dir.disk), name) == expected
              && DisposalName(name, v) !in old(dir.disk).names
            ==> failure.None?
    ensures dir.quiet && dir.faults.count <= old(dir.faults).count + 1 && old(dir.disk.parent) == bound
              && expected.Some? && ArtifactAt(old(dir.disk), name) == expected && DisposalName(name, v) !in old(dir.disk).names
            ==> Reported({name, DisposalName(name, v)}, dir.disk, if failure.None? then [] else [failure.value])
  {
    hide AllSafe, Anchored, Recoverable, Guarded, MayClean, Committed, LinkCount;
    if expected.None? {
      return Some(CleanupFailure(None));
    }
    var ok := DisposeArtifact(dir, s, name, expected.value, bound, v);
    if ok {
      return None;
    }
    var snapshot := expected.value.snapshot;
    var candidates := [(DisposalName(name, v), snapshot), (name, snapshot)];
    if ArtifactAt(old(dir.disk), name) == expected && DisposalName(name, v) !in old(dir.disk).names {
      MovedArtifact(old(dir.disk), name, DisposalName(name, v), expected.value);
    }
    assert candidates[0] in candidates && candidates[1] in candidates;
    var bound' := BindOwnedCleanupFailure(dir, candidates, bound);
    return Some(bound');
  }

  /** Names outside `touched` are bound as before, and no file changed. */
  ghost predicate Elsewhere(before: Disk, after: Disk, touched: set<string>) {
    && after.parent == before.parent
    && after.files == before.files
    && forall n | n !in touched :: (n in after.names <==> n in before.names)
                                   && (n in before.names ==> after.names[n] == before.names[n])
  }

  lemma ElsewhereTrans(a: Disk, b: Disk, c: Disk, x: set<string>, y: set<string>, z: set<string>)
    requires Elsewhere(a, b, x) && Elsewhere(b, c, y) && x <= z && y <= z
    ensures Elsewhere(a, c, z)
  {
  }

  lemma ElsewhereSelf(d: Disk, touched: set<string>)
    ensures Elsewhere(d, d, touched)
  {
  }

  lemma RenamedElsewhere(d: Disk, e: Disk, a: string, b: string, touched: set<string>)
    requires a in d.names && b !in d.names && e == Renamed(d, a, b) && a in touched && b in touched
    ensures Elsewhere(d, e, touched)
  {
  }

  /** Put a quarantined target back under its own name, then dispose of the quarantine name. */
  method RestoreQuarantinedTarget(dir: Directory, ghost s: Session, file: string, quarantine: string,
                                  quarantined: Artifact, bound: nat, v: Uuid)
    returns (failures: seq<CleanupFailure>)
    requires dir.Inv(s) && s.parent == bound && s.file == file
    requires quarantine != file && |file| <= |quarantine|
    requires s.expected == Some(quarantined.snapshot) && quarantined.links >= 1
    modifies dir
    ensures Later(old(dir.faults), dir.faults)
    ensures dir.Inv(s) && Extends(old(dir.trace), dir.trace)
    ensures dir.quiet ==> Elsewhere(old(dir.disk), dir.disk, {file, quarantine, DisposalName(quarantine, v)})
    ensures dir.quiet ==> SnapshotAt(dir.disk, file) in {SnapshotAt(old(dir.disk), file), Some(quarantined.snapshot)}
    ensures dir.quiet && dir.faults == old(dir.faults) && old(dir.disk.parent) == bound
              && ArtifactAt(old(dir.disk), quarantine) == Some(quarantined) && file !in old(dir.disk).names
            ==> SnapshotAt(dir.disk, file) == Some(quarantined.snapshot)
    ensures dir.quiet && dir.faults == old(dir.faults) && old(dir.disk.parent) == bound
              && ArtifactAt(old(dir.disk), quarantine) == Some(quarantined)
              && file !in old(dir.disk).names && DisposalName(quarantine, v) !in old(dir.disk).names
            ==> failures == [] && SnapshotAt(dir.disk, file) == Some(quarantined.snapshot)
                && dir.disk == Removed(Linked(old(dir.disk), quarantine, file), quarantine)
  {
    hide AllSafe, Recoverable, Anchored, Recognise;
    var linked := WithLinkCount(quarantined, quarantined.links + 1);
    var ok := RelinkTarget(dir, s, file, quarantine, quarantined, bound);
    if ok {
      var failure := CleanupBoundArtifact(dir, s, quarantine, Some(linked), bound, v);
      if failure.Some? {
        return [failure.value];
      }
      if dir.quiet {
        RemovedArtifact(old(dir.disk), quarantine, file, quarantined);
      }
      ok := dir.RequireArtifact(file, quarantined, bound);
      if ok {
        return [];
      }
    }
    var f := BindOwnedCleanupFailure(dir, [(quarantine, quarantined.snapshot), (quarantine, quarantined.snapshot)], bound);
    return [f];
  }

  /** First half of a restoration: link the target back and check both names. */
  method RelinkTarget(dir: Directory, ghost s: Session, file: string, quarantine: string, quarantined: Artifact, bound: nat)
    returns (ok: bool)
    requires dir.Inv(s) && s.parent == bound && s.file == file && quarantine != file
    requires s.expected == Some(quarantined.snapshot)
    modifies dir
    ensures Later(old(dir.faults), dir.faults)
    ensures dir.Inv(s) && Extends(old(dir.trace), dir.trace)
    ensures || dir.disk == old(dir.disk)
            || (&& ArtifactAt(old(dir.disk), quarantine) == Some(quarantined) && file !in old(dir.disk).names
                && dir.disk == Linked(old(dir.disk), quarantine, file))
    ensures ok ==> dir.disk != old(dir.disk)
                   && ArtifactAt(dir.disk, quarantine) == Some(WithLinkCount(quarantined, quarantined.links + 1))
    ensures dir.quiet && dir.faults == old(dir.faults) && old(dir.disk.parent) == bound
              && ArtifactAt(old(dir.disk), quarantine) == Some(quarantined)
              && file !in old(dir.disk).names
            ==> ok
  {
    hide AllSafe, Anchored, Committed, Recognise;
    ok := dir.RequireArtifact(quarantine, quarantined, bound);
    if !ok { return; }
    ok := dir.RequireAbsent(file, bound);
    if !ok { return; }
    LinkedLinks(dir.disk, quarantine, file, dir.disk.names[quarantine]);
    ok := LinkOwned(dir, s, quarantine, file);
    if !ok { return; }
    var linked := WithLinkCount(quarantined, quarantined.links + 1);
    ok := dir.RequireArtifact(quarantine, linked, bound);
    if !ok { return; }
    ok := dir.RequireArtifact(file, linked, bound);
  }

  lemma RemovedArtifact(d: World, quarantine: string, file: string, quarantined: Artifact)
    requires ArtifactAt(d, quarantine) == Some(quarantined) && file !in d.names
    ensures ArtifactAt(Removed(Linked(d, quarantine, file), quarantine), file) == Some(quarantined)
  {
    var i := d.names[quarantine];
    LinkedLinks(d, quarantine, file, i);
    RemovedLinks(Linked(d, quarantine, file), quarantine, i);
  }

  /** After an attempt to restore, the call reports an uncommitted failure only when it reads the planned
      original back at the target. */
  method ThrowAfterOriginalRestoreAttempt(dir: Directory, failures: seq<CleanupFailure>, file: string,
                                          expected: Snapshot, bound: nat)
    returns (e: Thrown)
    modifies dir`faults
    ensures LaterAt(old(dir.faults), dir.faults, |dir.trace|)
    ensures e.Plain? || e.CommittedUnlink?
    ensures failures <= FailuresOf(e)
    ensures e.Plain? ==> SnapshotAt(dir.disk, file) == Some(expected)
    ensures dir.faults == old(dir.faults) && dir.disk.parent == bound
              && SnapshotAt(dir.disk, file) == Some(expected)
            ==> e == Plain(failures)
  {
    var r := dir.Read(file, bound);
    match r
    case Unreadable =>
      e := CommittedUnlink(failures + [CleanupFailure(None)]);
    case Missing =>
      e := CommittedUnlink(failures);
    case Found(a) =>
      e := if a.snapshot == expected then Plain(failures) else CommittedUnlink(failures);
  }
}
