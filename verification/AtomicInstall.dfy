/** The whole conditional write: prepare a temporary file, install it over the planned target, dispose
    of the names that the call made. */
module AtomicInstall {
  import opened Wrappers
  import opened AtomicNames
  import opened Disks
  import opened Directories
  import opened AtomicCleanup
  import opened AtomicUpdate

  datatype WriteResult = Installed(cleanup: seq<CleanupFailure>) | WriteThrew(error: Thrown)

  /** The failures that an outcome lists. */
  function Listed(r: WriteResult): seq<CleanupFailure> {
    match r
    case Installed(c) => c
    case WriteThrew(e) => FailuresOf(e)
  }

  /** The quarantined original was left alone or disposed of, and is reported if it was left. */
  ghost predicate Accounted(before: Disk, after: Disk, q: Option<Quarantined>, v: Uuid, failures: seq<CleanupFailure>) {
    if q.None? then after == before
    else && CleanupEffect(before, after, q.value.name, DisposalName(q.value.name, v))
         && Reported({q.value.name, DisposalName(q.value.name, v)}, after, failures)
  }

  ghost predicate ExpectationHolds(d: Disk, file: string, ex: Expectation) {
    && SnapshotAt(d, file) == ex.expected
    && forall k | 0 <= k < |ex.mustRemainAbsent| :: ex.mustRemainAbsent[k] !in d.names
  }

  /** The call may go ahead: the directory and the target are the planned ones, no alternate exists. */
  ghost predicate Plannable(d: Disk, file: string, ex: Expectation) {
    ExpectationHolds(d, file, ex) && (ex.expectedParent.Some? ==> ex.expectedParent.value == d.parent)
  }

  /** The names this call would bind are free. */
  ghost predicate Fresh(d: Disk, file: string, ids: Uuids) {
    d.names.Keys !! (Touched(file, ids) - {file})
  }

  lemma TemporaryApart(file: string, ids: Uuids)
    ensures TemporaryName(file, ids.temporary) !in Touched(file, ids)
  {
  }

  /** What the three names show once the original is in quarantine and the new file is linked. */
  lemma InstalledArtifacts(d: World, temporary: string, file: string, q: Quarantined, prepared: Artifact)
    requires ArtifactAt(d, temporary) == Some(prepared) && prepared.links == 1
    requires ArtifactAt(d, file) == Some(q.artifact) && q.name !in d.names && temporary != file
    ensures var e := Renamed(d, file, q.name);
            && ArtifactAt(e, temporary) == Some(prepared)
            && ArtifactAt(e, q.name) == Some(q.artifact)
            && file !in e.names
            && ArtifactAt(Linked(e, temporary, file), q.name) == Some(q.artifact)
  {
    var e := Renamed(d, file, q.name);
    var i, o := d.names[temporary], d.names[file];
    if i == o {
      OnlyName(d, temporary, file);
    }
    RenamedLinks(d, file, q.name, i);
    RenamedLinks(d, file, q.name, o);
    LinkedLinks(e, temporary, file, o);
  }

  lemma LinkedArtifacts(d: World, temporary: string, file: string, prepared: Artifact)
    requires ArtifactAt(d, temporary) == Some(prepared) && file !in d.names
    ensures var linked := WithLinkCount(prepared, prepared.links + 1);
            && ArtifactAt(Linked(d, temporary, file), temporary) == Some(linked)
            && ArtifactAt(Linked(d, temporary, file), file) == Some(linked)
  {
    LinkedLinks(d, temporary, file, d.names[temporary]);
  }

  /** After the commit: dispose of the quarantined original. */
  method FinishInstall(dir: Directory, ghost s: Session, file: string, q: Option<Quarantined>, bound: nat, ids: Uuids)
    returns (r: WriteResult)
    requires dir.Inv(s) && s.parent == bound && s.file == file && s.kind.Previous?
    requires dir.disk.parent == bound && CommitPoint(s, dir.disk)
    requires QuarantineFits(file, s.expected, q)
    modifies dir
    ensures Later(old(dir.faults), dir.faults)
    ensures dir.Inv(s) && Extends(old(dir.trace), dir.trace) && Committed(dir.trace)
    ensures r.WriteThrew? ==> r.error.CommittedMutation?
    ensures dir.quiet && q.None? ==> dir.disk == old(dir.disk)
    ensures dir.quiet && q.Some? ==>
              CleanupEffect(old(dir.disk), dir.disk, q.value.name, DisposalName(q.value.name, ids.disposeQuarantine))
    ensures dir.quiet && r == Installed([]) && q.Some? ==> dir.disk == Removed(old(dir.disk), q.value.name)
    ensures dir.quiet && dir.faults == old(dir.faults)
              && (q.Some? ==> && ArtifactAt(old(dir.disk), q.value.name) == Some(q.value.artifact)
                              && DisposalName(q.value.name, ids.disposeQuarantine) !in old(dir.disk).names)
            ==> r == Installed([])
    ensures dir.quiet && dir.faults.count <= old(dir.faults).count + 1 && Held(old(dir.disk), q)
              && (q.Some? ==> DisposalName(q.value.name, ids.disposeQuarantine) !in old(dir.disk).names)
            ==> Accounted(old(dir.disk), dir.disk, q, ids.disposeQuarantine, Listed(r))
  {
    dir.MarkCommit(s);
    var failures := [];
    if q.Some? {
      var failure := CleanupBoundArtifact(dir, s, q.value.name, Some(q.value.artifact), bound, ids.disposeQuarantine);
      if failure.Some? {
        failures := [failure.value];
      }
    }
    var ok := dir.RequireBoundDirectory(bound);
    r := if ok then Installed(failures) else WriteThrew(CommittedMutation(failures));
  }

  /** Look for alternates, commit, dispose of the original: everything after the confirmation. */
  method ConcludeInstall(dir: Directory, ghost s: Session, temporary: string, linked: Artifact, file: string,
                         ex: Expectation, q: Option<Quarantined>, bound: nat, ids: Uuids)
    returns (r: WriteResult, links: nat)
    requires dir.Inv(s) && s.parent == bound && s.file == file && s.kind.Previous? && s.expected == ex.expected
    requires s.temp == Some(linked.snapshot.inode)
    requires linked == Artifact(Snapshot(linked.snapshot.inode, s.bytes, s.mode), 2)
    requires dir.disk.parent == bound && ArtifactAt(dir.disk, file) == Some(linked)
    requires QuarantineFits(file, ex.expected, q)
    requires q.Some? ==> q.value.name == PreviousName(file, ids)
                         && ArtifactAt(dir.disk, q.value.name) == Some(q.value.artifact)
    requires dir.quiet ==> Hidden(s, dir.disk, q)
    modifies dir
    ensures Later(old(dir.faults), dir.faults)
    ensures dir.Inv(s) && Extends(old(dir.trace), dir.trace)
    ensures r.Installed? ==> Committed(dir.trace) && links == 2
    ensures dir.quiet ==> Elsewhere(old(dir.disk), dir.disk, Touched(file, ids))
    ensures dir.quiet && r.WriteThrew? ==> Shows(dir.disk, file, r.error, ex.expected, linked.snapshot)
    ensures dir.quiet && r.WriteThrew?
              && (forall k | 0 <= k < |ex.mustRemainAbsent| :: ex.mustRemainAbsent[k] !in old(dir.disk).names)
            ==> r.error.CommittedMutation?
    ensures dir.quiet && r.Installed? ==> SnapshotAt(dir.disk, file) == Some(linked.snapshot)
    ensures dir.quiet && r == Installed([]) ==>
              && (forall k | 0 <= k < |ex.mustRemainAbsent| :: ex.mustRemainAbsent[k] !in dir.disk.names)
              && dir.disk == if q.Some? then Removed(old(dir.disk), q.value.name) else old(dir.disk)
    ensures dir.quiet && dir.faults == old(dir.faults)
              && (forall k | 0 <= k < |ex.mustRemainAbsent| :: ex.mustRemainAbsent[k] !in old(dir.disk).names)
              && (q.Some? ==> DisposalName(q.value.name, ids.disposeQuarantine) !in old(dir.disk).names)
            ==> r == Installed([])
    ensures dir.quiet && dir.faults.count <= old(dir.faults).count + 1
              && (forall k | 0 <= k < |ex.mustRemainAbsent| :: ex.mustRemainAbsent[k] !in old(dir.disk).names)
              && (q.Some? ==> DisposalName(q.value.name, ids.disposeQuarantine) !in old(dir.disk).names)
            ==> links == 2 && Accounted(old(dir.disk), dir.disk, q, ids.disposeQuarantine, Listed(r))
  {
    hide Committed, Recognise, AllSafe, Recoverable, Anchored;
    var e;
    e, links := CheckAlternates(dir, s, ex.mustRemainAbsent, temporary, file, linked, ex.expected, q, bound, ids);
    if e.Some? {
      r := WriteThrew(e.value);
      return;
    }
    r := FinishInstall(dir, s, file, q, bound, ids);
  }

  /** Nothing was disposed of, and the quarantined original is reported. */
  lemma DisplacedIsAccounted(d: Disk, q: Option<Quarantined>, v: Uuid)
    requires q.Some? ==> DisposalName(q.value.name, v) !in d.names
    ensures Accounted(d, d, q, v, Displaced(q))
  {
  }

  /** Everything that the confirmation of a linked file needs is in place. */
  ghost predicate LinkReady(d: Disk, temporary: string, linked: Artifact, ex: Expectation, q: Option<Quarantined>,
                            bound: nat, ids: Uuids) {
    && d.parent == bound && ArtifactAt(d, temporary) == Some(linked) && Held(d, q)
    && (forall k | 0 <= k < |ex.mustRemainAbsent| :: ex.mustRemainAbsent[k] !in d.names)
    && (q.Some? ==> DisposalName(q.value.name, ids.disposeQuarantine) !in d.names)
  }

  /** Confirm the linked file, then conclude. */
  method ConfirmAndConclude(dir: Directory, ghost s: Session, temporary: string, linked: Artifact, file: string,
                            ex: Expectation, q: Option<Quarantined>, bound: nat, ids: Uuids)
    returns (r: WriteResult, links: nat)
    requires dir.Inv(s) && s.parent == bound && s.file == file && s.kind.Previous? && s.expected == ex.expected
    requires s.temp == Some(linked.snapshot.inode)
    requires linked == Artifact(Snapshot(linked.snapshot.inode, s.bytes, s.mode), 2)
    requires QuarantineFits(file, ex.expected, q)
    requires q.Some? ==> q.value.name == PreviousName(file, ids)
    requires dir.quiet ==> Hidden(s, dir.disk, q) && ArtifactAt(dir.disk, file) == Some(linked)
    modifies dir
    ensures Later(old(dir.faults), dir.faults)
    ensures dir.Inv(s) && Extends(old(dir.trace), dir.trace)
    ensures r.Installed? ==> Committed(dir.trace) && links == 2
    ensures dir.quiet ==> Elsewhere(old(dir.disk), dir.disk, Touched(file, ids))
    ensures dir.quiet && r.WriteThrew? ==> Shows(dir.disk, file, r.error, ex.expected, linked.snapshot)
    ensures dir.quiet && r.WriteThrew?
              && (forall k | 0 <= k < |ex.mustRemainAbsent| :: ex.mustRemainAbsent[k] !in old(dir.disk).names)
            ==> r.error.CommittedMutation?
    ensures dir.quiet && r.Installed? ==> SnapshotAt(dir.disk, file) == Some(linked.snapshot)
    ensures dir.quiet && r == Installed([]) ==>
              && (forall k | 0 <= k < |ex.mustRemainAbsent| :: ex.mustRemainAbsent[k] !in dir.disk.names)
              && dir.disk == if q.Some? then Removed(old(dir.disk), q.value.name) else old(dir.disk)
    ensures dir.quiet && dir.faults == old(dir.faults) && LinkReady(old(dir.disk), temporary, linked, ex, q, bound, ids)
            ==> r == Installed([])
    ensures dir.quiet && dir.faults.count <= old(dir.faults).count + 1
              && LinkReady(old(dir.disk), temporary, linked, ex, q, bound, ids)
            ==> links == 2 && Accounted(old(dir.disk), dir.disk, q, ids.disposeQuarantine, Listed(r))
  {
    hide Committed, Recognise, AllSafe, Recoverable, Anchored, Elsewhere, Accounted, LinkCount, Touched;
    ElsewhereSelf(dir.disk, Touched(file, ids));
    if LinkReady(dir.disk, temporary, linked, ex, q, bound, ids) {
      DisplacedIsAccounted(dir.disk, q, ids.disposeQuarantine);
    }
    var e := ConfirmInstalled(dir, s, temporary, linked, file, q, bound);
    if e.Some? {
      r, links := WriteThrew(e.value), 2;
      return;
    }
    r, links := ConcludeInstall(dir, s, temporary, linked, file, ex, q, bound, ids);
  }

  /** Link and confirm the new file at the emptied target, then conclude. */
  method InstallPrepared(dir: Directory, ghost s: Session, temporary: string, prepared: Artifact, file: string,
                         ex: Expectation, q: Option<Quarantined>, bound: nat, ids: Uuids)
    returns (r: WriteResult, links: nat)
    requires dir.Inv(s) && s.parent == bound && s.file == file && s.kind.Previous? && s.expected == ex.expected
    requires s.temp == Some(prepared.snapshot.inode)
    requires prepared == Artifact(Snapshot(prepared.snapshot.inode, s.bytes, s.mode), 1)
    requires QuarantineFits(file, ex.expected, q)
    requires q.Some? ==> q.value.name == PreviousName(file, ids)
    requires dir.quiet ==> Hidden(s, dir.disk, q) && file !in dir.disk.names
    modifies dir
    ensures Later(old(dir.faults), dir.faults)
    ensures dir.Inv(s) && Extends(old(dir.trace), dir.trace)
    ensures r.Installed? ==> Committed(dir.trace) && links == 2
    ensures dir.quiet ==> Elsewhere(old(dir.disk), dir.disk, Touched(file, ids))
    ensures dir.quiet && r.WriteThrew? ==> Shows(dir.disk, file, r.error, ex.expected, prepared.snapshot)
    ensures dir.quiet && r.Installed? ==> SnapshotAt(dir.disk, file) == Some(prepared.snapshot)
    ensures dir.quiet && r == Installed([]) ==>
              && (forall k | 0 <= k < |ex.mustRemainAbsent| :: ex.mustRemainAbsent[k] !in dir.disk.names)
              && ArtifactAt(old(dir.disk), temporary) == Some(prepared)
              && dir.disk == if q.Some? then Removed(Linked(old(dir.disk), temporary, file), q.value.name)
                             else Linked(old(dir.disk), temporary, file)
    ensures dir.quiet && dir.faults == old(dir.faults)
              && InstallReady(old(dir.disk), temporary, prepared, file, ex, q, bound, ids)
            ==> r == Installed([])
    ensures dir.quiet && dir.faults.count <= old(dir.faults).count + 1
              && InstallReady(old(dir.disk), temporary, prepared, file, ex, q, bound, ids) && r.WriteThrew?
            ==> r.error.Plain? || r.error.CommittedMutation?
    ensures dir.quiet && dir.faults.count <= old(dir.faults).count + 1
              && InstallReady(old(dir.disk), temporary, prepared, file, ex, q, bound, ids)
            ==> if links == 1 then && r == WriteThrew(Plain([]))
                                   && dir.disk == if q.Some? then PutBack(old(dir.disk), q.value.name, file) else old(dir.disk)
                else links == 2 && Accounted(Linked(old(dir.disk), temporary, file), dir.disk, q, ids.disposeQuarantine, Listed(r))
  {
    hide AllSafe, Recoverable, Anchored, Recognise, Committed, LinkCount, PutBack, Reported, Gap, Accounted;
    links := 1;
    var e := LinkPrepared(dir, s, temporary, prepared, file, ex.expected, q, bound, ids.disposeQuarantine);
    if e.Some? {
      r := WriteThrew(e.value);
      return;
    }
    ghost var d := dir.disk;
    links := 2;
    var linked := WithLinkCount(prepared, 2);
    if dir.quiet {
      LinkedArtifacts(old(dir.disk), temporary, file, prepared);
    }
    r, links := ConfirmAndConclude(dir, s, temporary, linked, file, ex, q, bound, ids);
    if dir.quiet {
      ElsewhereTrans(old(dir.disk), d, dir.disk, {file}, Touched(file, ids), Touched(file, ids));
    }
  }

  /** Everything the installation needs is in place. */
  ghost predicate InstallReady(d: Disk, temporary: string, prepared: Artifact, file: string, ex: Expectation,
                               q: Option<Quarantined>, bound: nat, ids: Uuids) {
    && d.parent == bound
    && ArtifactAt(d, temporary) == Some(prepared)
    && file !in d.names
    && (forall k | 0 <= k < |ex.mustRemainAbsent| ::
          ex.mustRemainAbsent[k] !in d.names && ex.mustRemainAbsent[k] != file)
    && (q.Some? ==>
          && ArtifactAt(d, q.value.name) == Some(q.value.artifact)
          && ArtifactAt(Linked(d, temporary, file), q.value.name) == Some(q.value.artifact)
          && DisposalName(q.value.name, ids.disposeQuarantine) !in d.names
          && DisposalName(q.value.name, ids.disposeQuarantine) != file)
  }

  ghost predicate NoAlternateIsTouched(file: string, ex: Expectation, ids: Uuids) {
    forall k | 0 <= k < |ex.mustRemainAbsent| :: ex.mustRemainAbsent[k] !in Touched(file, ids)
  }

  /** The plan holds, and none of the names that the call would bind is taken or watched. */
  ghost predicate ReadyFor(d: Disk, file: string, ex: Expectation, bound: nat, ids: Uuids) {
    d.parent == bound && ExpectationHolds(d, file, ex) && Fresh(d, file, ids) && NoAlternateIsTouched(file, ex, ids)
  }

  /** Without faults an installation can go wrong only because the expectation does not hold. */
  lemma ReadyToInstall(d: World, file: string, prepared: Artifact, ex: Expectation, q: Option<Quarantined>,
                       bound: nat, ids: Uuids)
    requires ReadyFor(d, file, ex, bound, ids)
    requires ArtifactAt(d, TemporaryName(file, ids.temporary)) == Some(prepared) && prepared.links == 1
    requires q.Some? <==> file in d.names
    requires q.Some? ==> q.value.name == PreviousName(file, ids) && ArtifactAt(d, file) == Some(q.value.artifact)
    ensures InstallReady(if q.Some? then Renamed(d, file, q.value.name) else d,
                         TemporaryName(file, ids.temporary), prepared, file, ex, q, bound, ids)
  {
    var temporary := TemporaryName(file, ids.temporary);
    CreatedNamesAreLonger(file, ids.temporary, Previous);
    if q.Some? {
      var disposal := DisposalName(q.value.name, ids.disposeQuarantine);
      CreatedNamesAreLonger(file, ids.quarantine, Previous);
      CreatedNamesAreLonger(q.value.name, ids.disposeQuarantine, Previous);
      assert q.value.name in Touched(file, ids) && disposal in Touched(file, ids);
      assert q.value.name !in d.names && disposal !in d.names;
      InstalledArtifacts(d, temporary, file, q.value, prepared);
    }
  }

  /** Take a planned original away from the target, or find the target empty as planned. */
  method EmptyTarget(dir: Directory, ghost s: Session, file: string, expected: Option<Snapshot>, bound: nat, ids: Uuids)
    returns (r: Result<Option<Quarantined>, Thrown>)
    requires dir.Inv(s) && s.parent == bound && s.file == file && s.kind.Previous? && s.expected == expected
    requires SnapshotAt(dir.disk, file) == expected
    requires dir.quiet ==> SnapshotAt(s.start, file) == expected
    modifies dir
    ensures Later(old(dir.faults), dir.faults)
    ensures dir.Inv(s) && Extends(old(dir.trace), dir.trace)
    ensures r.Ok? ==> QuarantineFits(file, expected, r.value)
                      && (r.value.Some? <==> expected.Some?)
                      && (r.value.Some? ==> r.value.value.name == PreviousName(file, ids))
    ensures dir.quiet && r.Ok? ==>
              && Hidden(s, dir.disk, r.value) && file !in dir.disk.names
              && (if r.value.None? then dir.disk == old(dir.disk) else
                    && ArtifactAt(old(dir.disk), file) == Some(r.value.value.artifact)
                    && r.value.value.name !in old(dir.disk).names
                    && dir.disk == Renamed(old(dir.disk), file, r.value.value.name))
    ensures dir.quiet && r.Err? ==>
              && !r.error.CommittedMutation?
              && (forall installed :: Truthful(old(dir.disk), dir.disk, file, r.error, installed))
              && Elsewhere(old(dir.disk), dir.disk, Touched(file, ids))
    ensures dir.quiet && r.Err? && r.error.CommittedUnlink? && dir.faults.count <= old(dir.faults).count + 1 ==>
              dir.faults.count == old(dir.faults).count + 1 && Gap(dir.trace, file, dir.faults.last)
    ensures dir.quiet && dir.faults == old(dir.faults) && old(dir.disk.parent) == bound
              && Fresh(old(dir.disk), file, ids)
            ==> r.Ok?
    ensures dir.quiet && r.Err? && dir.faults.count <= old(dir.faults).count + 1 && Fresh(old(dir.disk), file, ids) ==>
              if r.error.Plain? then r.error == Plain([]) && dir.disk == old(dir.disk)
              else && r.error == CommittedUnlink([CleanupFailure(Some(PreviousName(file, ids)))]) && file in old(dir.disk).names
                   && dir.disk == Renamed(old(dir.disk), file, PreviousName(file, ids))
  {
    if expected.None? {
      return Ok(None);
    }
    CreatedNamesAreLonger(file, ids.quarantine, Previous);
    QuarantineRecognised(file, ids.quarantine, Previous);
    assert PreviousName(file, ids) in Touched(file, ids) - {file};
    CreatedNamesAreLonger(PreviousName(file, ids), ids.disposeQuarantine, Previous);
    assert DisposalName(PreviousName(file, ids), ids.disposeQuarantine) in Touched(file, ids) - {file};
    var held := QuarantineTarget(dir, s, file, expected.value, bound, ids.quarantine, ids.disposeQuarantine);
    if held.Err? {
      return Err(held.error);
    }
    assert dir.quiet ==> ShelteredAs(s, dir.disk, held.value.name);
    return Ok(Some(held.value));
  }

  /** The disk after the original was quarantined, the new file linked, and the quarantine disposed of. */
  function Replaced(d: Disk, temporary: string, file: string, q: Option<Quarantined>): Disk
    requires temporary in d.names && temporary != file
    requires q.Some? ==> file in d.names && q.value.name !in d.names && q.value.name != temporary
  {
    if q.Some? then Removed(Linked(Renamed(d, file, q.value.name), temporary, file), q.value.name)
    else Linked(d, temporary, file)
  }

  lemma ReplacedNames(d: Disk, temporary: string, file: string, q: Option<Quarantined>)
    requires temporary in d.names && temporary != file
    requires q.Some? ==> file in d.names && q.value.name !in d.names && q.value.name != temporary
    ensures Replaced(d, temporary, file, q) == d.(names := d.names[file := d.names[temporary]])
  {
  }

  /** Everything left from an installation that linked the new file is reported, and its temporary name is one of two links. */
  lemma InstalledIsAccounted(d: World, e: World, temporary: string, prepared: Artifact, file: string, q: Option<Quarantined>,
                             ids: Uuids, failures: seq<CleanupFailure>)
    requires Fresh(d, file, ids) && temporary == TemporaryName(file, ids.temporary)
    requires ArtifactAt(d, temporary) == Some(prepared) && prepared.links == 1
    requires if q.None? then file !in d.names
             else q.value.name == PreviousName(file, ids) && ArtifactAt(d, file) == Some(q.value.artifact)
    requires Accounted(Linked(if q.Some? then Renamed(d, file, q.value.name) else d, temporary, file), e, q, ids.disposeQuarantine,
                       failures)
    ensures Reported(Touched(file, ids) - {file}, e, failures)
    ensures ArtifactAt(e, temporary) == Some(WithLinkCount(prepared, 2))
  {
    TemporaryApart(file, ids);
    CreatedNamesAreLonger(file, ids.temporary, Previous);
    var emptied := if q.Some? then Renamed(d, file, q.value.name) else d;
    if q.Some? {
      CreatedNamesAreLonger(file, ids.quarantine, Previous);
      assert q.value.name in Touched(file, ids) - {file};
      InstalledArtifacts(d, temporary, file, q.value, prepared);
    }
    LinkedArtifacts(emptied, temporary, file, prepared);
    if q.Some? {
      DisposalKeepsTemporary(Linked(emptied, temporary, file), e, temporary, file, prepared, q.value, ids);
    }
  }

  lemma DisposalKeepsTemporary(d: World, e: Disk, temporary: string, file: string, prepared: Artifact, q: Quarantined, ids: Uuids)
    requires q.name == PreviousName(file, ids) && temporary == TemporaryName(file, ids.temporary)
    requires CleanupEffect(d, e, q.name, DisposalName(q.name, ids.disposeQuarantine))
    requires ArtifactAt(d, temporary) == Some(WithLinkCount(prepared, 2)) && ArtifactAt(d, q.name) == Some(q.artifact)
    requires q.artifact.snapshot.inode != prepared.snapshot.inode
    ensures ArtifactAt(e, temporary) == ArtifactAt(d, temporary)
  {
    TemporaryApart(file, ids);
    var i, disposal := prepared.snapshot.inode, DisposalName(q.name, ids.disposeQuarantine);
    if e == Removed(d, q.name) {
      RemovedLinks(d, q.name, i);
    } else if e != d {
      RenamedLinks(d, q.name, disposal, i);
    }
  }

  /** Before anything was linked the temporary name is the only link, and none of the other names is bound. */
  lemma NothingIsLeft(d: World, temporary: string, prepared: Artifact, file: string, ids: Uuids)
    requires Fresh(d, file, ids) && ArtifactAt(d, temporary) == Some(prepared) && prepared.links == 1
    ensures Reported(Touched(file, ids) - {file}, d, [])
    ensures ArtifactAt(d, temporary) == Some(WithLinkCount(prepared, 1))
  {
  }

  /** The same when the original was left in quarantine and reported there. */
  lemma DisplacedIsReported(d: World, temporary: string, prepared: Artifact, file: string, ids: Uuids)
    requires Fresh(d, file, ids) && ArtifactAt(d, temporary) == Some(prepared) && prepared.links == 1
    requires file in d.names && temporary == TemporaryName(file, ids.temporary)
    ensures var e := Renamed(d, file, PreviousName(file, ids));
            && Reported(Touched(file, ids) - {file}, e, [CleanupFailure(Some(PreviousName(file, ids)))])
            && ArtifactAt(e, temporary) == Some(WithLinkCount(prepared, 1))
  {
    TemporaryApart(file, ids);
    CreatedNamesAreLonger(file, ids.temporary, Previous);
    CreatedNamesAreLonger(file, ids.quarantine, Previous);
    assert PreviousName(file, ids) in Touched(file, ids) - {file};
    RenamedLinks(d, file, PreviousName(file, ids), prepared.snapshot.inode);
  }

  /** Replace the target as planned, once the plan has been confirmed. */
  method ReplaceTarget(dir: Directory, ghost s: Session, temporary: string, prepared: Artifact, file: string,
                       ex: Expectation, bound: nat, ids: Uuids)
    returns (r: WriteResult, links: nat)
    requires dir.Inv(s) && s.parent == bound && s.file == file && s.kind.Previous? && s.expected == ex.expected
    requires s.temp == Some(prepared.snapshot.inode)
    requires prepared == Artifact(Snapshot(prepared.snapshot.inode, s.bytes, s.mode), 1)
    requires temporary == TemporaryName(file, ids.temporary)
    requires SnapshotAt(dir.disk, file) == ex.expected
    requires dir.quiet ==> SnapshotAt(s.start, file) == ex.expected
    modifies dir
    ensures Later(old(dir.faults), dir.faults)
    ensures dir.Inv(s) && Extends(old(dir.trace), dir.trace)
    ensures r.Installed? ==> Committed(dir.trace) && links == 2
    ensures dir.quiet ==> Elsewhere(old(dir.disk), dir.disk, Touched(file, ids))
    ensures dir.quiet && r.WriteThrew? ==> Truthful(old(dir.disk), dir.disk, file, r.error, prepared.snapshot)
    ensures dir.quiet && r.Installed? ==> SnapshotAt(dir.disk, file) == Some(prepared.snapshot)
    ensures dir.quiet && r == Installed([]) ==>
              && dir.disk == old(dir.disk).(names := old(dir.disk).names[file := prepared.snapshot.inode])
              && (forall k | 0 <= k < |ex.mustRemainAbsent| :: ex.mustRemainAbsent[k] !in dir.disk.names)
    ensures dir.quiet && dir.faults == old(dir.faults) && ReadyFor(old(dir.disk), file, ex, bound, ids)
              && ArtifactAt(old(dir.disk), temporary) == Some(prepared)
            ==> r == Installed([])
    ensures dir.quiet && dir.faults.count <= old(dir.faults).count + 1 && ReadyFor(old(dir.disk), file, ex, bound, ids)
              && ArtifactAt(old(dir.disk), temporary) == Some(prepared) && r.WriteThrew? && r.error.CommittedUnlink?
            ==> dir.faults.count == old(dir.faults).count + 1 && Gap(dir.trace, file, dir.faults.last)
    ensures dir.quiet && dir.faults.count <= old(dir.faults).count + 1 && ReadyFor(old(dir.disk), file, ex, bound, ids)
              && ArtifactAt(old(dir.disk), temporary) == Some(prepared)
            ==> && Reported(Touched(file, ids) - {file}, dir.disk, Listed(r))
                && ArtifactAt(dir.disk, temporary) == Some(WithLinkCount(prepared, links))
  {
    hide AllSafe, Recoverable, Anchored, Fresh, NoAlternateIsTouched, Reported, Accounted, Touched, Committed, Gap, LinkCount,
         Elsewhere, Hidden, SnapshotAt, ArtifactAt, Truthful, WithLinkCount;
    ghost var d := dir.disk;
    ghost var ready := dir.quiet && ReadyFor(d, file, ex, bound, ids) && ArtifactAt(d, temporary) == Some(prepared);
    if ready {
      NothingIsLeft(d, temporary, prepared, file, ids);
    }
    links := 1;
    var emptied := EmptyTarget(dir, s, file, ex.expected, bound, ids);
    if emptied.Err? {
      r := WriteThrew(emptied.error);
      if ready && file in d.names {
        DisplacedIsReported(d, temporary, prepared, file, ids);
      }
      return;
    }
    r, links := InstallEmptied(dir, s, d, temporary, prepared, file, ex, emptied.value, bound, ids);
    if ready && links == 2 && dir.faults.count <= old(dir.faults).count + 1 {
      PlannedTarget(d, file, ex, emptied.value);
      InstalledIsAccounted(d, dir.disk, temporary, prepared, file, emptied.value, ids, Listed(r));
    }
  }

  lemma PlannedTarget(d: World, file: string, ex: Expectation, q: Option<Quarantined>)
    requires SnapshotAt(d, file) == ex.expected && (q.Some? <==> ex.expected.Some?)
    ensures q.None? <==> file !in d.names
  {
  }

  method ConditionalInstall(dir: Directory, ghost s: Session, temporary: string, prepared: Artifact, file: string,
                            ex: Expectation, bound: nat, ids: Uuids)
    returns (r: WriteResult, links: nat)
    requires dir.Inv(s) && s.parent == bound && s.file == file && s.kind.Previous? && s.expected == ex.expected
    requires s.temp == Some(prepared.snapshot.inode)
    requires prepared == Artifact(Snapshot(prepared.snapshot.inode, s.bytes, s.mode), 1)
    requires temporary == TemporaryName(file, ids.temporary)
    requires dir.quiet ==> SnapshotAt(dir.disk, file) == SnapshotAt(s.start, file)
    modifies dir
    ensures Later(old(dir.faults), dir.faults)
    ensures dir.Inv(s) && Extends(old(dir.trace), dir.trace)
    ensures r.Installed? ==> Committed(dir.trace) && links == 2
    ensures dir.quiet ==> Elsewhere(old(dir.disk), dir.disk, Touched(file, ids))
    ensures dir.quiet && r.WriteThrew? ==> Truthful(old(dir.disk), dir.disk, file, r.error, prepared.snapshot)
    ensures dir.quiet && r.Installed? ==> SnapshotAt(dir.disk, file) == Some(prepared.snapshot)
    ensures dir.quiet && r == Installed([]) ==>
              && dir.disk == old(dir.disk).(names := old(dir.disk).names[file := prepared.snapshot.inode])
              && (forall k | 0 <= k < |ex.mustRemainAbsent| :: ex.mustRemainAbsent[k] !in dir.disk.names)
    ensures dir.quiet && dir.faults == old(dir.faults) && ReadyFor(old(dir.disk), file, ex, bound, ids)
              && ArtifactAt(old(dir.disk), temporary) == Some(prepared)
            ==> r == Installed([])
    ensures dir.quiet && dir.faults.count <= old(dir.faults).count + 1 && ReadyFor(old(dir.disk), file, ex, bound, ids)
              && ArtifactAt(old(dir.disk), temporary) == Some(prepared) && r.WriteThrew? && r.error.CommittedUnlink?
            ==> dir.faults.count == old(dir.faults).count + 1 && Gap(dir.trace, file, dir.faults.last)
    ensures dir.quiet && !ExpectationHolds(old(dir.disk), file, ex) ==>
              r == WriteThrew(Plain([])) && links == 1 && dir.disk == old(dir.disk)
    ensures dir.quiet && dir.faults.count <= old(dir.faults).count + 1 && ReadyFor(old(dir.disk), file, ex, bound, ids)
              && ArtifactAt(old(dir.disk), temporary) == Some(prepared)
            ==> && Reported(Touched(file, ids) - {file}, dir.disk, Listed(r))
                && ArtifactAt(dir.disk, temporary) == Some(WithLinkCount(prepared, links))
  {
    hide AllSafe, Recoverable, Anchored, Fresh, NoAlternateIsTouched, Reported, Touched, Committed, Gap, Elsewhere, LinkCount;
    ElsewhereSelf(dir.disk, Touched(file, ids));
    if ReadyFor(dir.disk, file, ex, bound, ids) && ArtifactAt(dir.disk, temporary) == Some(prepared) {
      NothingIsLeft(dir.disk, temporary, prepared, file, ids);
    }
    links := 1;
    var ok := dir.RequireBoundDirectory(bound);
    if ok {
      ok := AssertFileExpectation(dir, file, ex, bound);
    }
    if !ok {
      r := WriteThrew(Plain([]));
      return;
    }
    r, links := ReplaceTarget(dir, s, temporary, prepared, file, ex, bound, ids);
  }

  /** The installation, with its effect stated from the disk `d` on which the target was still in place. */
  method InstallEmptied(dir: Directory, ghost s: Session, ghost d: World, temporary: string, prepared: Artifact, file: string,
                        ex: Expectation, q: Option<Quarantined>, bound: nat, ids: Uuids)
    returns (r: WriteResult, links: nat)
    requires dir.Inv(s) && s.parent == bound && s.file == file && s.kind.Previous? && s.expected == ex.expected
    requires s.temp == Some(prepared.snapshot.inode)
    requires prepared == Artifact(Snapshot(prepared.snapshot.inode, s.bytes, s.mode), 1)
    requires QuarantineFits(file, ex.expected, q) && temporary == TemporaryName(file, ids.temporary)
    requires q.Some? ==> q.value.name == PreviousName(file, ids)
    requires SnapshotAt(d, file) == ex.expected
    requires dir.quiet ==>
               && Hidden(s, dir.disk, q) && file !in dir.disk.names
               && (if q.None? then dir.disk == d else
                     && ArtifactAt(d, file) == Some(q.value.artifact) && q.value.name !in d.names
                     && dir.disk == Renamed(d, file, q.value.name))
    modifies dir
    ensures Later(old(dir.faults), dir.faults)
    ensures dir.Inv(s) && Extends(old(dir.trace), dir.trace)
    ensures r.Installed? ==> Committed(dir.trace) && links == 2
    ensures dir.quiet ==> Elsewhere(d, dir.disk, Touched(file, ids))
    ensures dir.quiet && r.WriteThrew? ==> Truthful(d, dir.disk, file, r.error, prepared.snapshot)
    ensures dir.quiet && r.Installed? ==> SnapshotAt(dir.disk, file) == Some(prepared.snapshot)
    ensures dir.quiet && r == Installed([]) ==>
              && temporary in d.names && d.names[temporary] == prepared.snapshot.inode
              && dir.disk == d.(names := d.names[file := prepared.snapshot.inode])
              && (forall k | 0 <= k < |ex.mustRemainAbsent| :: ex.mustRemainAbsent[k] !in dir.disk.names)
    ensures dir.quiet && dir.faults == old(dir.faults) && ReadyFor(d, file, ex, bound, ids)
              && ArtifactAt(d, temporary) == Some(prepared)
            ==> r == Installed([])
    ensures dir.quiet && dir.faults.count <= old(dir.faults).count + 1 && ReadyFor(d, file, ex, bound, ids)
              && ArtifactAt(d, temporary) == Some(prepared) && r.WriteThrew?
            ==> r.error.Plain? || r.error.CommittedMutation?
    ensures dir.quiet && dir.faults.count <= old(dir.faults).count + 1 && ReadyFor(d, file, ex, bound, ids)
              && ArtifactAt(d, temporary) == Some(prepared)
            ==> if links == 1 then r == WriteThrew(Plain([])) && dir.disk == d
                else links == 2 && Accounted(Linked(old(dir.disk), temporary, file), dir.disk, q, ids.disposeQuarantine, Listed(r))
  {
    hide AllSafe, Recoverable, Anchored, Committed, Elsewhere, InstallReady, NoAlternateIsTouched, Fresh, Accounted, PutBack;
    ghost var emptied := dir.disk;
    ghost var ready := dir.quiet && ReadyFor(d, file, ex, bound, ids) && ArtifactAt(d, temporary) == Some(prepared);
    if ready {
      ReadyToInstall(d, file, prepared, ex, q, bound, ids);
    }
    r, links := InstallPrepared(dir, s, temporary, prepared, file, ex, q, bound, ids);
    if dir.quiet {
      if q.None? {
        ElsewhereSelf(d, Touched(file, ids));
      } else {
        RenamedElsewhere(d, emptied, file, q.value.name, Touched(file, ids));
        PutBackUndoes(d, file, q.value.name);
      }
      ElsewhereTrans(d, emptied, dir.disk, Touched(file, ids), Touched(file, ids), Touched(file, ids));
      TemporaryApart(file, ids);
      if r == Installed([]) {
        ReplacedNames(d, temporary, file, q);
      }
    }
  }
}
