/** The entry point of a conditional write: it makes the temporary file, installs it, and removes the
    temporary name whatever happened. */
module AtomicWrite {
  import opened Wrappers
  import opened AtomicNames
  import opened Disks
  import opened Directories
  import opened AtomicCleanup
  import opened AtomicUpdate
  import opened AtomicHistory
  import opened AtomicInstall

  /** The disk with the new file prepared under a temporary name. */
  function Prepared(d: Disk, temporary: string, i: Inode, bytes: string, mode: nat): Disk {
    d.(names := d.names[temporary := i], files := d.files[i := File(bytes, mode, 0)])
  }

  /** Only the temporary names and the new inode may differ. */
  ghost predicate PreparationEffect(before: Disk, after: Disk, temporary: string, v: Uuid, temp: Option<Inode>) {
    && after.parent == before.parent
    && (forall i | i in before.files :: i in after.files && after.files[i] == before.files[i])
    && (forall i | i in after.files && i !in before.files :: Some(i) == temp)
    && (forall n | n !in {temporary, DisposalName(temporary, v)} ::
          (n in after.names <==> n in before.names) && (n in before.names ==> after.names[n] == before.names[n]))
  }

  lemma PreparedArtifact(d: World, temporary: string, i: Inode, bytes: string, mode: nat)
    requires temporary !in d.names && i !in d.files
    ensures ArtifactAt(Prepared(d, temporary, i, bytes, mode), temporary) == Some(Artifact(Snapshot(i, bytes, mode), 1))
    ensures forall m :: Stored(Created(d, temporary, i, m), i, bytes, mode) == Prepared(d, temporary, i, bytes, mode)
    ensures forall b, m :: Stored(Prepared(d, temporary, i, b, m), i, bytes, mode) == Prepared(d, temporary, i, bytes, mode)
  {
    assert NamesOf(Prepared(d, temporary, i, bytes, mode), i) == {temporary};
  }

  /** Contents or mode of the call's own new file. */
  method StoreOwned(dir: Directory, ghost s: Session, i: Inode, bytes: string, mode: nat)
    requires dir.Inv(s) && dir.disk.parent == s.parent && s.temp == Some(i) && i in dir.disk.files
    modifies dir
    ensures Later(old(dir.faults), dir.faults)
    ensures dir.Inv(s) && Extends(old(dir.trace), dir.trace)
    ensures Begun(s, dir.trace) <==> Begun(s, old(dir.trace))
    ensures dir.disk == Stored(old(dir.disk), i, bytes, mode)
  {
    ghost var d, t := dir.disk, dir.trace;
    assert s.quiet ==> Recoverable(s, t, Stored(d, i, bytes, mode)) by {
      if n :| ShelteredAs(s, d, n) {
        assert ShelteredAs(s, Stored(d, i, bytes, mode), n);
      }
    }
    StoreIsSafe(s, t, d, i, bytes, mode);
    CommittedGrows(t, Step(Action.Store(i), d, Stored(d, i, bytes, mode)));
    AnchorHolds(s, t, Step(Action.Store(i), d, Stored(d, i, bytes, mode)));
    BegunGrows(s, t, Step(Action.Store(i), d, Stored(d, i, bytes, mode)));
    dir.Store(i, bytes, mode);
  }

  /** Write the contents, then set the mode; a failed write may leave any prefix. */
  method FillTemporary(dir: Directory, ghost s: Session, ghost d: World, temporary: string, i: Inode,
                       content: string, mode: nat, bound: nat)
    returns (ok: bool)
    requires dir.Inv(s) && s.parent == bound && s.temp == Some(i)
    requires temporary !in d.names && i !in d.files && d.parent == bound
    requires exists m :: dir.disk == Created(d, temporary, i, m)
    modifies dir
    ensures Later(old(dir.faults), dir.faults)
    ensures dir.Inv(s) && Extends(old(dir.trace), dir.trace)
    ensures Begun(s, dir.trace) <==> Begun(s, old(dir.trace))
    ensures exists b, m :: dir.disk == Prepared(d, temporary, i, b, m)
    ensures ok ==> dir.disk == Prepared(d, temporary, i, content, mode)
    ensures dir.quiet && dir.faults == old(dir.faults) ==> ok
  {
    hide AllSafe, Recoverable, Anchored, Committed;
    PreparedArtifact(d, temporary, i, content, mode);
    ghost var m0 :| dir.disk == Created(d, temporary, i, m0);
    assert dir.disk == Prepared(d, temporary, i, "", m0);
    ok := dir.RequireBoundDirectory(bound);
    if !ok { return; }
    ok := dir.Attempt();
    var m := dir.disk.files[i].mode;
    var written := content;
    if !ok {
      var k: int := *;
      written := if 0 <= k <= |content| then content[..k] else content;
    }
    PreparedArtifact(d, temporary, i, written, m);
    StoreOwned(dir, s, i, written, m);
    if !ok { return; }
    ok := dir.Attempt();
    if !ok { return; }
    StoreOwned(dir, s, i, content, mode);
    ok := dir.Attempt();
  }

  /** The artifact behind an open handle, whatever its names are by now. */
  method ReadOpenHandleArtifact(dir: Directory, i: Inode) returns (r: Option<Artifact>)
    modifies dir`faults
    ensures LaterAt(old(dir.faults), dir.faults, |dir.trace|)
    ensures r.Some? ==> ArtifactOf(dir.disk, i) == r
    ensures dir.faults == old(dir.faults) && i in dir.disk.files ==> r.Some?
  {
    var ok := dir.Attempt();
    return if ok then ArtifactOf(dir.disk, i) else None;
  }

  /** The checks before the commit, around the last preparation hook. */
  method ConfirmPrepared(dir: Directory, ghost s: Session, temporary: string, i: Inode, prepared: Artifact, bound: nat)
    returns (ok: bool)
    requires dir.Inv(s)
    modifies dir
    ensures Later(old(dir.faults), dir.faults)
    ensures dir.Inv(s) && Extends(old(dir.trace), dir.trace)
    ensures Begun(s, dir.trace) <==> Begun(s, old(dir.trace))
    ensures dir.quiet ==> dir.disk == old(dir.disk)
    ensures ok ==> dir.disk.parent == bound && ArtifactAt(dir.disk, temporary) == Some(prepared)
    ensures dir.quiet && dir.faults == old(dir.faults) && old(dir.disk.parent) == bound
              && ArtifactAt(old(dir.disk), temporary) == Some(prepared)
              && prepared.snapshot.inode == i
            ==> ok
  {
    hide AllSafe, Recoverable, Anchored, Committed, Begun, LinkCount;
    ok := dir.RequireBoundDirectory(bound);
    if !ok { return; }
    ok := dir.RequireArtifact(temporary, prepared, bound);
    if !ok { return; }
    ghost var d := dir.disk;
    var threw := dir.Interfere(s);
    BegunGrows(s, old(dir.trace), Step(Interference, d, dir.disk));
    if threw { ok := false; return; }
    ok := dir.RequireBoundDirectory(bound);
    if !ok { return; }
    var handle := ReadOpenHandleArtifact(dir, i);
    ok := handle == Some(prepared);
    if !ok { return; }
    ok := dir.RequireArtifact(temporary, prepared, bound);
  }

  lemma TemporaryGuarded(s: Session, t: seq<Step>, d: Disk, temporary: string, u: Uuid)
    requires temporary == TemporaryName(s.file, u) && s.kind.Previous?
    requires Recoverable(s, t, d)
    ensures Guarded(s, t, d, temporary)
  {
  }

  /** Exclusive creation of the temporary file; from here on the session knows its inode. */
  method CreateTemporary(dir: Directory, ghost s0: Session, temporary: string, bound: nat)
    returns (created: Option<Inode>, ghost s: Session)
    requires dir.Inv(s0) && dir.trace == [] && s0.parent == bound && s0.temp.None? && dir.disk.parent == bound
    requires temporary != s0.file
    modifies dir
    ensures Later(old(dir.faults), dir.faults)
    ensures s == s0.(temp := created) && dir.Inv(s) && !Begun(s, dir.trace)
    ensures created.None? ==> dir.disk == old(dir.disk)
    ensures created.Some? ==> temporary !in old(dir.disk).names && created.value !in old(dir.disk).files
                              && exists m :: dir.disk == Created(old(dir.disk), temporary, created.value, m)
    ensures dir.quiet && dir.faults == old(dir.faults) && temporary !in old(dir.disk).names ==> created.Some?
  {
    ghost var d := dir.disk;
    var masked: int := *;
    masked := if masked < 0 then 0 else masked;
    created := dir.Create(temporary, masked);
    s := s0.(temp := created);
    if created.Some? {
      var i := created.value;
      assert Recoverable(s, [], d) ==> Recoverable(s, [], Created(d, temporary, i, masked)) by {
        if n :| ShelteredAs(s, d, n) {
          assert ShelteredAs(s, Created(d, temporary, i, masked), n);
        }
      }
      assert Recoverable(s0, [], d) ==> Recoverable(s, [], d) by {
        if n :| ShelteredAs(s0, d, n) {
          assert ShelteredAs(s, d, n);
        }
      }
      CreateIsSafe(s, [], d, temporary, i, masked);
    }
  }

  /** Remove the temporary file after a failed preparation, when its handle can still be read. */
  method CleanupBeforeCommit(dir: Directory, ghost s: Session, temporary: string, i: Inode, bound: nat, ids: Uuids)
    returns (e: Thrown)
    requires dir.Inv(s) && s.parent == bound && s.kind.Previous? && s.temp == Some(i) && !Begun(s, dir.trace)
    requires temporary == TemporaryName(s.file, ids.temporary)
    modifies dir
    ensures Later(old(dir.faults), dir.faults)
    ensures dir.Inv(s) && Extends(old(dir.trace), dir.trace) && e.Plain?
    ensures dir.quiet ==> CleanupEffect(old(dir.disk), dir.disk, temporary, DisposalName(temporary, ids.disposeTemporary))
    ensures dir.quiet && dir.faults == old(dir.faults) && old(dir.disk.parent) == bound
              && temporary in old(dir.disk).names && old(dir.disk).names[temporary] == i
              && DisposalName(temporary, ids.disposeTemporary) !in old(dir.disk).names
            ==> e == Plain([]) && dir.disk == Removed(old(dir.disk), temporary)
    ensures dir.quiet && e == Plain([]) ==> temporary in old(dir.disk).names && dir.disk == Removed(old(dir.disk), temporary)
  {
    CreatedNamesAreLonger(s.file, ids.temporary, Previous);
    var binding := ReadOpenHandleArtifact(dir, i);
    if dir.quiet {
      TemporaryGuarded(s, dir.trace, dir.disk, temporary, ids.temporary);
    }
    var failure := CleanupBoundArtifact(dir, s, temporary, binding, bound, ids.disposeTemporary);
    e := Plain(if failure.None? then [] else [failure.value]);
  }

  lemma CleanedPreparation(d: World, e: World, temporary: string, i: Inode, bytes: string, mode: nat, v: Uuid)
    requires temporary !in d.names && i !in d.files
    requires CleanupEffect(Prepared(d, temporary, i, bytes, mode), e, temporary, DisposalName(temporary, v))
    ensures PreparationEffect(d, e, temporary, v, Some(i))
  {
  }

  /** Fill the new file, then check it around the hook. */
  method FillAndConfirm(dir: Directory, ghost s: Session, ghost d: World, temporary: string, prepared: Artifact, bound: nat)
    returns (ok: bool)
    requires dir.Inv(s) && s.parent == bound && s.temp == Some(prepared.snapshot.inode) && prepared.links == 1
    requires temporary !in d.names && prepared.snapshot.inode !in d.files && d.parent == bound
    requires exists m :: dir.disk == Created(d, temporary, prepared.snapshot.inode, m)
    modifies dir
    ensures Later(old(dir.faults), dir.faults)
    ensures dir.Inv(s) && Extends(old(dir.trace), dir.trace)
    ensures Begun(s, dir.trace) <==> Begun(s, old(dir.trace))
    ensures dir.quiet ==> exists b, m :: dir.disk == Prepared(d, temporary, prepared.snapshot.inode, b, m)
    ensures dir.quiet && ok ==>
              dir.disk == Prepared(d, temporary, prepared.snapshot.inode, prepared.snapshot.bytes, prepared.snapshot.mode)
    ensures dir.quiet && dir.faults == old(dir.faults) ==> ok
  {
    hide AllSafe, Recoverable, Anchored, Committed, Begun, LinkCount;
    var Snapshot(i, content, mode) := prepared.snapshot;
    PreparedArtifact(d, temporary, i, content, mode);
    ok := FillTemporary(dir, s, d, temporary, i, content, mode, bound);
    if ok {
      ok := ConfirmPrepared(dir, s, temporary, i, prepared, bound);
    }
  }

  lemma NothingPrepared(d: Disk, temporary: string, v: Uuid)
    ensures PreparationEffect(d, d, temporary, v, None)
  {
  }

  /** Create, fill and confirm the temporary file; on failure remove what was created. */
  method PrepareTemporary(dir: Directory, ghost s0: Session, file: string, content: string, mode: nat, bound: nat, ids: Uuids)
    returns (r: Result<Artifact, Thrown>, ghost s: Session)
    requires dir.Inv(s0) && dir.trace == [] && s0.parent == bound && s0.file == file && s0.kind.Previous?
    requires s0.temp.None? && s0.bytes == content && s0.mode == mode && dir.disk.parent == bound
    modifies dir
    ensures Later(old(dir.faults), dir.faults)
    ensures dir.Inv(s) && s == s0.(temp := s.temp)
    ensures r.Ok? ==> && s.temp == Some(r.value.snapshot.inode)
                      && r.value == Artifact(Snapshot(r.value.snapshot.inode, content, mode), 1)
    ensures r.Err? ==> r.error.Plain?
    ensures dir.quiet && r.Ok? ==>
              && TemporaryName(file, ids.temporary) !in old(dir.disk).names
              && s.temp.value !in old(dir.disk).files
              && dir.disk == Prepared(old(dir.disk), TemporaryName(file, ids.temporary), s.temp.value, content, mode)
    ensures dir.quiet && r.Err? ==>
              PreparationEffect(old(dir.disk), dir.disk, TemporaryName(file, ids.temporary), ids.disposeTemporary, s.temp)
    ensures dir.quiet && dir.faults == old(dir.faults) && TemporaryName(file, ids.temporary) !in old(dir.disk).names ==> r.Ok?
    ensures dir.quiet && dir.faults.count <= old(dir.faults).count + 1 && r.Err?
              && DisposalName(TemporaryName(file, ids.temporary), ids.disposeTemporary) !in old(dir.disk).names
            ==> r == Err(Plain([])) && dir.disk.names == old(dir.disk).names
    ensures dir.quiet && r == Err(Plain([])) ==> dir.disk.names == old(dir.disk).names
  {
    hide AllSafe, Recoverable, Anchored, Committed, Begun, LinkCount, CleanupEffect, PreparationEffect;
    NothingPrepared(dir.disk, TemporaryName(file, ids.temporary), ids.disposeTemporary);
    var temporary := TemporaryName(file, ids.temporary);
    CreatedNamesAreLonger(file, ids.temporary, Previous);
    ghost var d := dir.disk;
    var created;
    created, s := CreateTemporary(dir, s0, temporary, bound);
    if created.None? {
      r := Err(Plain([]));
      return;
    }
    var i := created.value;
    var prepared := Artifact(Snapshot(i, content, mode), 1);
    var ok := FillAndConfirm(dir, s, d, temporary, prepared, bound);
    if ok {
      r := Ok(prepared);
      return;
    }
    ghost var filled := dir.disk;
    var e := CleanupBeforeCommit(dir, s, temporary, i, bound, ids);
    r := Err(e);
    if dir.quiet {
      ghost var b, m :| filled == Prepared(d, temporary, i, b, m);
      CleanedPreparation(d, dir.disk, temporary, i, b, m, ids.disposeTemporary);
    }
  }

  function WithFailure(e: Thrown, f: Option<CleanupFailure>): Thrown {
    if f.None? then e else
    match e
    case Plain(c) => Plain(c + [f.value])
    case CommittedUnlink(c) => CommittedUnlink(c + [f.value])
    case CommittedMutation(c) => CommittedMutation(c + [f.value])
  }

  lemma CleanupKeepsTarget(before: Disk, after: Disk, name: string, v: Uuid, file: string)
    requires CleanupEffect(before, after, name, DisposalName(name, v)) && |file| <= |name| && name != file
    ensures SnapshotAt(after, file) == SnapshotAt(before, file)
    ensures file in after.names <==> file in before.names
  {
  }

  /** Dispose of the temporary name, whatever the installation came to. */
  method ReleaseTemporary(dir: Directory, ghost s: Session, file: string, temporary: string, prepared: Artifact,
                          outcome: WriteResult, links: nat, bound: nat, ids: Uuids)
    returns (r: WriteResult)
    requires dir.Inv(s) && s.parent == bound && s.file == file && s.kind.Previous?
    requires s.temp == Some(prepared.snapshot.inode) && temporary == TemporaryName(file, ids.temporary)
    requires prepared.snapshot == Snapshot(prepared.snapshot.inode, s.bytes, s.mode)
    requires dir.quiet && outcome.Installed? ==> SnapshotAt(dir.disk, file) == Some(prepared.snapshot)
    modifies dir
    ensures Later(old(dir.faults), dir.faults)
    ensures dir.Inv(s) && Extends(old(dir.trace), dir.trace)
    ensures dir.quiet ==> CleanupEffect(old(dir.disk), dir.disk, temporary, DisposalName(temporary, ids.disposeTemporary))
    ensures r.Installed? ==> outcome.Installed?
    ensures outcome.WriteThrew? ==> r.WriteThrew? && (r.error.Plain? <==> outcome.error.Plain?)
                                    && (r.error.CommittedUnlink? <==> outcome.error.CommittedUnlink?)
    ensures outcome.Installed? && r.WriteThrew? ==> r.error.CommittedMutation?
    ensures r == Installed([]) ==>
              && outcome == Installed([])
              && dir.disk.parent == bound && ArtifactAt(dir.disk, file) == Some(prepared)
              && (dir.quiet ==> temporary in old(dir.disk).names && dir.disk == Removed(old(dir.disk), temporary))
    ensures dir.quiet && dir.faults == old(dir.faults) && old(dir.disk.parent) == bound
              && ArtifactAt(old(dir.disk), temporary) == Some(WithLinkCount(prepared, links))
              && DisposalName(temporary, ids.disposeTemporary) !in old(dir.disk).names
              && (outcome.Installed? ==> ArtifactAt(Removed(old(dir.disk), temporary), file) == Some(prepared))
            ==> r == outcome && dir.disk == Removed(old(dir.disk), temporary)
    ensures Listed(outcome) <= Listed(r)
    ensures dir.quiet && dir.faults.count <= old(dir.faults).count + 1 && old(dir.disk.parent) == bound
              && ArtifactAt(old(dir.disk), temporary) == Some(WithLinkCount(prepared, links))
              && DisposalName(temporary, ids.disposeTemporary) !in old(dir.disk).names
            ==> Reported({temporary, DisposalName(temporary, ids.disposeTemporary)}, dir.disk, Listed(r))
  {
    CreatedNamesAreLonger(file, ids.temporary, Previous);
    if dir.quiet {
      TemporaryGuarded(s, dir.trace, dir.disk, temporary, ids.temporary);
    }
    var failure := CleanupBoundArtifact(dir, s, temporary, Some(WithLinkCount(prepared, links)), bound, ids.disposeTemporary);
    if outcome.WriteThrew? {
      return WriteThrew(WithFailure(outcome.error, failure));
    }
    var failures := outcome.cleanup + if failure.None? then [] else [failure.value];
    var ok := true;
    if failure.None? {
      ok := dir.RequireArtifact(file, prepared, bound);
    }
    if ok {
      ok := dir.RequireBoundDirectory(bound);
    }
    return if ok then Installed(failures) else WriteThrew(CommittedMutation(failures));
  }

  /** Names that nothing has used and that no alternate asks for. */
  ghost predicate FreshCall(d: Disk, file: string, ex: Expectation, ids: Uuids) {
    && Fresh(d, file, ids) && NoAlternateIsTouched(file, ex, ids)
    && TemporaryName(file, ids.temporary) !in d.names
    && DisposalName(TemporaryName(file, ids.temporary), ids.disposeTemporary) !in d.names
    && DisposalName(TemporaryName(file, ids.temporary), ids.disposeTemporary) !in Touched(file, ids)
    && (forall k | 0 <= k < |ex.mustRemainAbsent| :: ex.mustRemainAbsent[k] != TemporaryName(file, ids.temporary))
  }

  /** The target bound to a new single-link file, and nothing else different. */
  ghost predicate ExactlyReplaced(before: Disk, after: Disk, file: string, i: Inode, bytes: string, mode: nat) {
    && i !in before.files
    && after == before.(names := before.names[file := i], files := before.files[i := File(bytes, mode, 0)])
  }

  /** Every file that existed keeps its contents, and every name the call did not make keeps its binding. */
  ghost predicate ForeignKept(before: Disk, after: Disk, own: set<string>) {
    && (forall i | i in before.files :: i in after.files && after.files[i] == before.files[i])
    && forall n | n !in own :: (n in after.names <==> n in before.names)
                               && (n in before.names ==> after.names[n] == before.names[n])
  }

  function OwnNames(file: string, ids: Uuids): set<string> {
    Touched(file, ids) + {TemporaryName(file, ids.temporary),
                          DisposalName(TemporaryName(file, ids.temporary), ids.disposeTemporary)}
  }

  lemma PreparedTarget(d: World, temporary: string, i: Inode, bytes: string, mode: nat, file: string, ex: Expectation)
    requires temporary !in d.names && i !in d.files && temporary != file
    ensures SnapshotAt(Prepared(d, temporary, i, bytes, mode), file) == SnapshotAt(d, file)
    ensures (forall k | 0 <= k < |ex.mustRemainAbsent| :: ex.mustRemainAbsent[k] != temporary) ==>
              (ExpectationHolds(Prepared(d, temporary, i, bytes, mode), file, ex) <==> ExpectationHolds(d, file, ex))
    ensures ExpectationHolds(Prepared(d, temporary, i, bytes, mode), file, ex) ==> ExpectationHolds(d, file, ex)
  {
  }

  /** From a prepared disk to the final one: the temporary link goes and the new file has one link. */
  lemma ReleasedDisk(d: World, temporary: string, file: string, i: Inode, bytes: string, mode: nat)
    requires temporary !in d.names && i !in d.files && temporary != file
    ensures var e := Prepared(d, temporary, i, bytes, mode);
            var installed := e.(names := e.names[file := i]);
            && ArtifactAt(installed, temporary) == Some(Artifact(Snapshot(i, bytes, mode), 2))
            && ArtifactAt(Removed(installed, temporary), file) == Some(Artifact(Snapshot(i, bytes, mode), 1))
            && ExactlyReplaced(d, Removed(installed, temporary), file, i, bytes, mode)
            && Removed(e, temporary).names == d.names
  {
    var e := Prepared(d, temporary, i, bytes, mode);
    var installed := e.(names := e.names[file := i]);
    assert NamesOf(installed, i) == {temporary, file};
    assert |{temporary, file}| == 2;
    RemovedLinks(installed, temporary, i);
    assert Removed(installed, temporary).names == d.names[file := i];
  }

  lemma KeptThrough(d0: World, d1: World, d2: World, d3: World, file: string, i: Inode, bytes: string, mode: nat, ids: Uuids)
    requires i !in d0.files && TemporaryName(file, ids.temporary) !in d0.names
    requires d1 == Prepared(d0, TemporaryName(file, ids.temporary), i, bytes, mode)
    requires Elsewhere(d1, d2, Touched(file, ids))
    requires CleanupEffect(d2, d3, TemporaryName(file, ids.temporary),
                           DisposalName(TemporaryName(file, ids.temporary), ids.disposeTemporary))
    ensures ForeignKept(d0, d3, OwnNames(file, ids))
  {
  }

  /** A failed preparation leaves the target and every foreign file alone. */
  lemma FailedPreparation(d: World, e: World, file: string, ids: Uuids, temp: Option<Inode>)
    requires PreparationEffect(d, e, TemporaryName(file, ids.temporary), ids.disposeTemporary, temp)
    ensures ForeignKept(d, e, OwnNames(file, ids)) && TargetKept(d, e, file)
  {
    CreatedNamesAreLonger(file, ids.temporary, Previous);
    CreatedNamesAreLonger(TemporaryName(file, ids.temporary), ids.disposeTemporary, Previous);
  }

  /** Preparing the new file uses up none of the other fresh names. */
  lemma PreparedIsFresh(d: World, temporary: string, i: Inode, bytes: string, mode: nat, file: string, ex: Expectation, ids: Uuids)
    requires temporary == TemporaryName(file, ids.temporary) && temporary !in d.names && i !in d.files
    requires FreshCall(d, file, ex, ids)
    ensures var e := Prepared(d, temporary, i, bytes, mode);
            && Fresh(e, file, ids) && NoAlternateIsTouched(file, ex, ids) && e.parent == d.parent
            && DisposalName(temporary, ids.disposeTemporary) !in e.names
            && DisposalName(temporary, ids.disposeTemporary) !in Touched(file, ids)
            && (ExpectationHolds(e, file, ex) <==> ExpectationHolds(d, file, ex))
  {
    TemporaryApart(file, ids);
    CreatedNamesAreLonger(file, ids.temporary, Previous);
    CreatedNamesAreLonger(temporary, ids.disposeTemporary, Previous);
    PreparedTarget(d, temporary, i, bytes, mode, file, ex);
  }

  /** The names of the installation and the temporary names are reported together. */
  lemma OwnNamesReported(d: Disk, e: Disk, file: string, temporary: string, ids: Uuids,
                         earlier: seq<CleanupFailure>, failures: seq<CleanupFailure>)
    requires temporary == TemporaryName(file, ids.temporary)
    requires Reported(Touched(file, ids) - {file}, d, earlier) && earlier <= failures
    requires CleanupEffect(d, e, temporary, DisposalName(temporary, ids.disposeTemporary))
    requires Reported({temporary, DisposalName(temporary, ids.disposeTemporary)}, e, failures)
    ensures Reported(OwnNames(file, ids) - {file}, e, failures)
  {
    TemporaryApart(file, ids);
    var disposal := DisposalName(temporary, ids.disposeTemporary);
    forall n | n in OwnNames(file, ids) - {file} && n in e.names
      ensures CleanupFailure(Some(n)) in failures
    {
      if n != temporary && n != disposal {
        assert n in Touched(file, ids) - {file} && n in d.names;
      }
    }
  }

  lemma FreshNamesAreFree(d: Disk, file: string, ex: Expectation, ids: Uuids)
    requires FreshCall(d, file, ex, ids)
    ensures Reported(OwnNames(file, ids) - {file}, d, [])
    ensures TemporaryName(file, ids.temporary) !in d.names
    ensures DisposalName(TemporaryName(file, ids.temporary), ids.disposeTemporary) !in d.names
  {
  }

  lemma ReportedAlike(names: set<string>, d: Disk, e: Disk, failures: seq<CleanupFailure>)
    requires Reported(names, d, failures) && e.names == d.names
    ensures Reported(names, e, failures)
  {
  }

  lemma UntouchedName(d: Disk, e: Disk, file: string, ids: Uuids, n: string)
    requires Elsewhere(d, e, Touched(file, ids)) && n !in Touched(file, ids) && n !in d.names
    ensures n !in e.names && e.parent == d.parent
  {
  }

  lemma ForeignSelf(d: Disk, own: set<string>)
    ensures ForeignKept(d, d, own)
  {
  }

  /** Install a prepared file and release its temporary name; the effect is stated from the disk `d`
      on which the call began. */
  method InstallAndRelease(dir: Directory, ghost s: Session, ghost d: World, file: string, prepared: Artifact,
                           ex: Expectation, bound: nat, ids: Uuids)
    returns (r: WriteResult)
    requires dir.Inv(s) && s.parent == bound && s.file == file && s.kind.Previous? && s.expected == ex.expected && s.start == d
    requires s.temp == Some(prepared.snapshot.inode)
    requires prepared == Artifact(Snapshot(prepared.snapshot.inode, s.bytes, s.mode), 1)
    requires dir.quiet ==>
               && TemporaryName(file, ids.temporary) !in d.names && prepared.snapshot.inode !in d.files && d.parent == bound
               && dir.disk == Prepared(d, TemporaryName(file, ids.temporary), prepared.snapshot.inode, s.bytes, s.mode)
    modifies dir
    ensures Later(old(dir.faults), dir.faults)
    ensures dir.Inv(s)
    ensures r.Installed? ==> Committed(dir.trace)
    ensures dir.quiet ==> ForeignKept(d, dir.disk, OwnNames(file, ids))
    ensures dir.quiet && r.WriteThrew? ==> Truthful(d, dir.disk, file, r.error, prepared.snapshot)
    ensures dir.quiet && r.Installed? ==> SnapshotAt(dir.disk, file) == Some(prepared.snapshot) && ExpectationHolds(d, file, ex)
    ensures dir.quiet && r == Installed([]) ==>
              && ExactlyReplaced(d, dir.disk, file, prepared.snapshot.inode, s.bytes, s.mode)
              && ArtifactAt(dir.disk, file) == Some(prepared)
              && (forall k | 0 <= k < |ex.mustRemainAbsent| :: ex.mustRemainAbsent[k] !in dir.disk.names)
    ensures dir.quiet && dir.faults == old(dir.faults) && FreshCall(d, file, ex, ids) ==>
              if ExpectationHolds(d, file, ex) then r == Installed([])
              else r == WriteThrew(Plain([])) && dir.disk.names == d.names
    ensures dir.quiet && dir.faults.count <= old(dir.faults).count + 1 && FreshCall(d, file, ex, ids)
              && r.WriteThrew? && r.error.CommittedUnlink?
            ==> dir.faults.count == old(dir.faults).count + 1 && Gap(dir.trace, file, dir.faults.last)
    ensures dir.quiet && dir.faults.count <= old(dir.faults).count + 1 && FreshCall(d, file, ex, ids) ==>
              Reported(OwnNames(file, ids) - {file}, dir.disk, Listed(r))
  {
    hide AllSafe, Recoverable, Anchored, Recognise, Gap, Elsewhere, CleanupEffect, ForeignKept, Prepared, Hidden, Reported, Fresh,
         NoAlternateIsTouched, Touched, ExactlyReplaced, LinkCount, OwnNames, Committed, ArtifactAt, SnapshotOf, WithLinkCount,
         Removed, FreshCall, Listed, ExpectationHolds, DisposalName, TemporaryName;
    var temporary := TemporaryName(file, ids.temporary);
    var i := prepared.snapshot.inode;
    CreatedNamesAreLonger(file, ids.temporary, Previous);
    TemporaryApart(file, ids);
    ghost var d1, ready := dir.disk, dir.quiet && FreshCall(d, file, ex, ids);
    if dir.quiet {
      PreparedTarget(d, temporary, i, s.bytes, s.mode, file, ex);
      PreparedArtifact(d, temporary, i, s.bytes, s.mode);
      ReleasedDisk(d, temporary, file, i, s.bytes, s.mode);
    }
    if ready {
      PreparedIsFresh(d, temporary, i, s.bytes, s.mode, file, ex, ids);
      NothingIsLeft(d1, temporary, prepared, file, ids);
    }
    var outcome, links := ConditionalInstall(dir, s, temporary, prepared, file, ex, bound, ids);
    ghost var d2, t2, f2 := dir.disk, dir.trace, dir.faults;
    if ready {
      UntouchedName(d1, d2, file, ids, DisposalName(temporary, ids.disposeTemporary));
    }
    r := ReleaseTemporary(dir, s, file, temporary, prepared, outcome, links, bound, ids);
    if Gap(t2, file, f2.last) {
      GapStays(t2, dir.trace, file, f2.last);
    }
    if dir.quiet {
      KeptThrough(d, d1, d2, dir.disk, file, i, s.bytes, s.mode, ids);
      CleanupKeepsTarget(d2, dir.disk, temporary, ids.disposeTemporary, file);
    }
    if ready && dir.faults.count <= old(dir.faults).count + 1 {
      OwnNamesReported(d2, dir.disk, file, temporary, ids, Listed(outcome), Listed(r));
    }
  }

  /** The session of an update that starts on disk `d`. */
  function UpdateSession(d: World, quiet: bool, file: string, content: string, mode: nat, ex: Expectation): Session {
    Session(file, ex.expected, None, content, mode % 512, d.parent, Previous, quiet, d)
  }

  /** Bind the directory that the path leads to; when the plan names its directory, the plan is checked there first. */
  method BindDirectory(dir: Directory, file: string, ex: Expectation) returns (bound: Option<nat>)
    modifies dir`faults
    ensures LaterAt(old(dir.faults), dir.faults, |dir.trace|)
    ensures bound.Some? ==> bound.value == dir.disk.parent && (ex.expectedParent.Some? ==> ex.expectedParent.value == bound.value)
    ensures dir.faults == old(dir.faults) && Plannable(dir.disk, file, ex) ==> bound.Some?
  {
    var ok: bool;
    if ex.expectedParent.None? {
      ok := dir.Attempt();
    } else {
      ok := AssertFileExpectation(dir, file, ex, ex.expectedParent.value);
    }
    if ok {
      ok := dir.Attempt();
    }
    var parent := dir.disk.parent;
    if !ok || (ex.expectedParent.Some? && ex.expectedParent.value != parent) {
      return None;
    }
    return Some(parent);
  }

  /** Write only when the target is still the exact file observed at planning time.

      Every step of the history is safe (`History`), whatever other processes do at the hooks and whichever
      calls fail. With quiet hooks the outcome is truthful and foreign names and files are kept. Without
      faults the write happens exactly when the plan still holds. After a single fault the target is never missing, unless that
      fault came right after the original was taken to quarantine, and every name left behind is reported. */
  method AtomicWriteTextIfUnchanged(dir: Directory, file: string, content: string, mode: nat, ex: Expectation, ids: Uuids)
    returns (r: WriteResult, ghost s: Session)
    requires dir.trace == [] && dir.faults.count == 0
    modifies dir
    ensures Later(old(dir.faults), dir.faults)
    ensures s == UpdateSession(old(dir.disk), dir.quiet, file, content, mode, ex).(temp := s.temp)
    ensures History(s, dir.trace, old(dir.disk), dir.disk)
    ensures r.Installed? ==> CommittedBefore(s, dir.trace, |dir.trace|) && s.temp.Some?
    ensures dir.quiet ==> ForeignKept(old(dir.disk), dir.disk, OwnNames(file, ids))
    ensures dir.quiet && r == Installed([]) ==>
              && ExpectationHolds(old(dir.disk), file, ex)
              && ExactlyReplaced(old(dir.disk), dir.disk, file, s.temp.value, content, mode % 512)
              && ArtifactAt(dir.disk, file) == Some(Artifact(Snapshot(s.temp.value, content, mode % 512), 1))
              && (forall k | 0 <= k < |ex.mustRemainAbsent| :: ex.mustRemainAbsent[k] !in dir.disk.names)
    ensures dir.quiet && r.Installed? ==> SnapshotAt(dir.disk, file) == Some(Snapshot(s.temp.value, content, mode % 512))
    ensures dir.quiet && r.WriteThrew? ==>
              match r.error
              case Plain(_) => TargetKept(old(dir.disk), dir.disk, file)
              case CommittedUnlink(_) => file !in dir.disk.names || TargetKept(old(dir.disk), dir.disk, file)
              case CommittedMutation(_) =>
                s.temp.Some? && SnapshotAt(dir.disk, file) == Some(Snapshot(s.temp.value, content, mode % 512))
    ensures dir.quiet && dir.faults.count == 0 && FreshCall(old(dir.disk), file, ex, ids) ==>
              if Plannable(old(dir.disk), file, ex) then r == Installed([])
              else r == WriteThrew(Plain([])) && dir.disk.names == old(dir.disk).names
    ensures dir.quiet && SingleFaultElsewhere(dir.trace, dir.faults, file) && FreshCall(old(dir.disk), file, ex, ids) ==>
              && !(r.WriteThrew? && r.error.CommittedUnlink?)
              && (TargetKept(old(dir.disk), dir.disk, file)
                  || (s.temp.Some? && SnapshotAt(dir.disk, file) == Some(Snapshot(s.temp.value, content, mode % 512))))
    ensures dir.quiet && dir.faults.count <= 1 && FreshCall(old(dir.disk), file, ex, ids) ==>
              Reported(OwnNames(file, ids) - {file}, dir.disk, Listed(r))
  {
    s := UpdateSession(dir.disk, dir.quiet, file, content, mode, ex);
    assert dir.Inv(s);
    ForeignSelf(dir.disk, OwnNames(file, ids));
    if FreshCall(dir.disk, file, ex, ids) {
      FreshNamesAreFree(dir.disk, file, ex, ids);
    }
    hide History, CommittedBefore, AllSafe, Anchored, Recoverable, ForeignKept, PreparationEffect, ExactlyReplaced, Prepared,
         Reported, FreshCall, OwnNames, Gap, Committed;
    var bound := BindDirectory(dir, file, ex);
    if bound.None? {
      r := WriteThrew(Plain([]));
      InvIsHistory(dir, s);
      return;
    }
    var prepared;
    ghost var d := dir.disk;
    prepared, s := PrepareTemporary(dir, s, file, content, mode % 512, bound.value, ids);
    if prepared.Err? {
      r := WriteThrew(prepared.error);
      if dir.quiet {
        FailedPreparation(d, dir.disk, file, ids, s.temp);
        if FreshCall(d, file, ex, ids) && dir.faults.count <= 1 {
          ReportedAlike(OwnNames(file, ids) - {file}, d, dir.disk, []);
        }
      }
      InvIsHistory(dir, s);
      return;
    }
    r := InstallAndRelease(dir, s, d, file, prepared.value, ex, bound.value, ids);
    InvIsHistory(dir, s);
  }
}
