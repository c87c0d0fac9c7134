/** What a safe history means for the reader: the original is never lost, foreign files are never
    touched, and an interrupted update can be recovered from a directory listing. */
module AtomicHistory {
  import opened FiniteSets
  import opened Wrappers
  import opened AtomicNames
  import opened Disks
  import opened Directories

  /** Consecutive steps, leading from one disk to the other. */
  ghost predicate Connected(t: seq<Step>, start: Disk, end: Disk) {
    if t == [] then start == end
    else && t[0].before == start && t[|t| - 1].after == end
         && forall k | 0 < k < |t| :: t[k - 1].after == t[k].before
  }

  /** A commit among the first `k` steps, in a state in which the original may be given up. */
  ghost predicate CommittedBefore(s: Session, t: seq<Step>, k: nat)
    requires k <= |t|
  {
    exists j | 0 <= j < k :: t[j].action.Commit? && CommitPoint(s, t[j].before)
  }

  /** An own step takes the last link of the planned original only by removing an owned name after a
      commit, that is, after the new file was linked at the target with exactly the new contents (or,
      for a deletion, after the original was alone in quarantine). */
  ghost predicate LosesOnlyCommitted(s: Session, t: seq<Step>, k: nat)
    requires k < |t|
  {
    Original(s).Some? && LinkCount(t[k].before, Original(s).value) > 0 && LinkCount(t[k].after, Original(s).value) == 0 ==>
      && t[k].action.Unlink? && Owned(s, t[..k], t[k].before, t[k].action.removed)
      && CommittedBefore(s, t, k)
  }

  lemma {:induction false} OriginalIsNeverLost(s: Session, t: seq<Step>, k: nat)
    requires AllSafe(s, t) && k < |t| && !t[k].action.Interference?
    ensures LosesOnlyCommitted(s, t, k)
  {
    SafeAt(s, t, k);
    if Original(s).Some? && LinkCount(t[k].before, Original(s).value) > 0 && LinkCount(t[k].after, Original(s).value) == 0 {
      CommitsAreReal(s, t, k);
      LastLinkGoesByRemoval(s, t[..k], t[k], Original(s).value);
    }
  }

  lemma CommitsAreReal(s: Session, t: seq<Step>, k: nat)
    requires AllSafe(s, t) && k <= |t| && Committed(t[..k])
    ensures CommittedBefore(s, t, k)
  {
    var j :| 0 <= j < k && t[..k][j].action.Commit?;
    SafeAt(s, t, j);
  }

  lemma LastLinkGoesByRemoval(s: Session, t: seq<Step>, st: Step, o: Inode)
    requires OwnStep(s, t, st) && LinkCount(st.before, o) > 0 && LinkCount(st.after, o) == 0
    ensures st.action.Unlink?
  {
    match st.action
    case Create(n, i) => CreationKeepsLinks(st.before, st.after, n, i, o);
    case Store(i) => StoringKeepsLinks(st.before, st.after, i, o);
    case Rename(a, b) => RenamedLinks(st.before, a, b, o);
    case Link(a, b) => LinkedLinks(st.before, a, b, o);
    case Unlink(a) =>
    case Commit =>
  }

  lemma CreationKeepsLinks(d: Disk, e: Disk, n: string, i: Inode, o: Inode)
    requires n !in d.names && i !in d.files && exists m :: e == Created(d, n, i, m)
    ensures LinkCount(e, o) >= LinkCount(d, o)
  {
    assert NamesOf(d, o) <= NamesOf(e, o);
    SubsetSize(NamesOf(d, o), NamesOf(e, o));
  }

  lemma StoringKeepsLinks(d: Disk, e: Disk, i: Inode, o: Inode)
    requires i in d.files && exists b, m :: e == Stored(d, i, b, m)
    ensures LinkCount(e, o) == LinkCount(d, o)
  {
    var b, m :| e == Stored(d, i, b, m);
    StoredLinks(d, i, b, m, o);
  }

  /** The names whose binding a step may change. */
  function StepNames(action: Action): set<string> {
    match action
    case Create(n, _) => {n}
    case Rename(a, b) => {a, b}
    case Link(_, b) => {b}
    case Unlink(a) => {a}
    case _ => {}
  }

  /** In the bound directory, the step unbinds only a name that holds the new file or the planned original,
      binds only a name that was absent, and writes only the new file. */
  ghost predicate TouchesOwnOnly(s: Session, t: seq<Step>, k: nat)
    requires k < |t|
  {
    var d, e := t[k].before, t[k].after;
    && d.parent == s.parent
    && (forall n | n in d.names && (n !in e.names || e.names[n] != d.names[n]) :: Owned(s, t[..k], d, n))
    && (forall n | n !in StepNames(t[k].action) ::
          (n in e.names <==> n in d.names) && (n in d.names ==> e.names[n] == d.names[n]))
    && (forall i | i in d.files && Some(i) != s.temp :: i in e.files && e.files[i] == d.files[i])
  }

  lemma {:induction false} ForeignFilesAreNeverTouched(s: Session, t: seq<Step>, k: nat)
    requires AllSafe(s, t) && k < |t| && !t[k].action.Interference?
    ensures TouchesOwnOnly(s, t, k)
  {
    hide AllSafe, KeepsOriginal, Recoverable, LinkCount, Steady, CommitPoint, Owned, SnapshotAt, ArtifactAt, HoldsNew;
    SafeAt(s, t, k);
  }

  /** A step takes the target away, links the new file or removes a name only when inode, bytes, mode and link count
      there came unchanged through the last hook. The target must be the planned original, or the new file with
      its two links; the new file is linked while it has one. Other names are moved and linked only when owned. */
  ghost predicate ActsOnRechecked(s: Session, t: seq<Step>, k: nat)
    requires k < |t|
  {
    match t[k].action
    case Rename(a, b) => MayRename(s, t[..k], t[k].before, a, b)
    case Link(a, b) => MayLink(s, t[..k], t[k].before, a, b)
    case Unlink(a) => MayUnlink(s, t[..k], t[k].before, a)
    case _ => true
  }

  lemma {:induction false} EditsAtHooksAreRespected(s: Session, t: seq<Step>, k: nat)
    requires AllSafe(s, t) && k < |t| && !t[k].action.Interference?
    ensures ActsOnRechecked(s, t, k)
  {
    SafeAt(s, t, k);
  }

  /** A crash right after this step leaves the original at the target, or under a name that the recogniser reads as
      the quarantine of this kind of mutation. A deletion may also have committed; it has then removed a
      name, or its basename consists of dots and hides the cleanup name. */
  ghost predicate CrashIsRecoverable(s: Session, t: seq<Step>, k: nat)
    requires k < |t|
  {
    s.file in s.start.names ==>
      || s.file in t[k].after.names
      || (exists n :: && n in t[k].after.names && t[k].after.names[n] == s.start.names[s.file]
                      && Recognise(s.file, n) == Some(s.kind))
      || (&& s.kind.Deleted? && CommittedBefore(s, t, k + 1)
          && (AllDots(s.file) || exists j | 0 <= j <= k :: t[j].action.Unlink?))
  }

  /** With quiet hooks, every crash point of an update or of a deletion can be recovered. */
  lemma {:induction false} CrashesAreRecoverable(s: Session, t: seq<Step>, k: nat)
    requires AllSafe(s, t) && k < |t| && s.quiet
    ensures CrashIsRecoverable(s, t, k)
  {
    hide AllSafe, OwnStep, AllDots, Recognise;
    SafeAt(s, t, k);
    var u := t[..k + 1];
    assert u == t[..k] + [t[k]];
    if s.file in s.start.names && s.file !in t[k].after.names {
      if Sheltered(s, t[k].after) {
        var n :| ShelteredAs(s, t[k].after, n);
      } else {
        CommitsAreReal(s, t, k + 1);
        if !AllDots(s.file) {
          var j :| 0 <= j < |u| && u[j].action.Unlink?;
          assert t[j].action.Unlink?;
        }
      }
    }
  }

  /** The steps of one call, from the disk it was given to the disk it left: own steps never lose the original, never
      touch a foreign file and act on rechecked artifacts; with quiet hooks nobody else acts and every crash
      point can be recovered. */
  ghost predicate History(s: Session, t: seq<Step>, start: Disk, end: Disk) {
    && Connected(t, start, end)
    && (forall k | 0 <= k < |t| && !t[k].action.Interference? ::
          LosesOnlyCommitted(s, t, k) && TouchesOwnOnly(s, t, k) && ActsOnRechecked(s, t, k))
    && (s.quiet ==> forall k | 0 <= k < |t| ::
          (t[k].action.Interference? ==> t[k].after == t[k].before) && CrashIsRecoverable(s, t, k))
  }

  lemma {:induction false} StepsAreConnected(s: Session, t: seq<Step>, k: nat)
    requires AllSafe(s, t) && k < |t|
    ensures k > 0 ==> t[k - 1].after == t[k].before
    ensures s.quiet && t[k].action.Interference? ==> t[k].after == t[k].before
  {
    SafeAt(s, t, k);
  }

  /** The invariant that every method of the call keeps gives the history its meaning. */
  lemma {:induction false} InvIsHistory(dir: Directory, s: Session)
    requires dir.Inv(s)
    ensures History(s, dir.trace, s.start, dir.disk)
    ensures Committed(dir.trace) ==> CommittedBefore(s, dir.trace, |dir.trace|)
  {
    hide LosesOnlyCommitted, TouchesOwnOnly, ActsOnRechecked, CrashIsRecoverable, AllSafe, Recoverable;
    var t := dir.trace;
    forall k | 0 <= k < |t|
      ensures k > 0 ==> t[k - 1].after == t[k].before
      ensures s.quiet && t[k].action.Interference? ==> t[k].after == t[k].before
    {
      StepsAreConnected(s, t, k);
    }
    forall k | 0 <= k < |t| && !t[k].action.Interference?
      ensures LosesOnlyCommitted(s, t, k) && TouchesOwnOnly(s, t, k) && ActsOnRechecked(s, t, k)
    {
      OriginalIsNeverLost(s, t, k);
      ForeignFilesAreNeverTouched(s, t, k);
      EditsAtHooksAreRespected(s, t, k);
    }
    forall k | 0 <= k < |t| && s.quiet
      ensures CrashIsRecoverable(s, t, k)
    {
      CrashesAreRecoverable(s, t, k);
    }
    if Committed(t) {
      assert t[..|t|] == t;
      CommitsAreReal(s, t, |t|);
    }
  }

  // Reading an interrupted mutation back.

  datatype PendingMutation = PendingMutation(kind: QuarantineKind, snapshot: Snapshot)

  datatype PendingResult = NothingPending | Pending(mutation: PendingMutation) | Ambiguous | Refused

  function RecognisedNamesOf(d: Disk, file: string): set<string> {
    set n | n in d.names && Recognise(file, n).Some?
  }

  /** The name holds a file that has further links. */
  predicate IsShared(d: Disk, n: string) {
    ArtifactAt(d, n).Some? && ArtifactAt(d, n).value.links != 1
  }

  /** Bind the one recognised quarantine of this basename. Several candidates are a conflict, and an artifact with more than
      one link is refused; without faults these are the only reasons for an answer other than `Pending`. */
  method ReadPendingAtomicMutation(dir: Directory, file: string, bound: nat) returns (r: PendingResult)
    modifies dir`faults
    ensures LaterAt(old(dir.faults), dir.faults, |dir.trace|)
    ensures r.Pending? ==>
              exists n :: && RecognisedNamesOf(dir.disk, file) == {n}
                          && Recognise(file, n) == Some(r.mutation.kind)
                          && ArtifactAt(dir.disk, n) == Some(Artifact(r.mutation.snapshot, 1))
    ensures dir.faults == old(dir.faults) && dir.disk.parent == bound ==>
              && (r.NothingPending? <==> RecognisedNamesOf(dir.disk, file) == {})
              && (r.Refused? ==> exists n :: RecognisedNamesOf(dir.disk, file) == {n} && IsShared(dir.disk, n))
    ensures r.Ambiguous? ==> |RecognisedNamesOf(dir.disk, file)| > 1
  {
    var ok := dir.RequireBoundDirectory(bound);
    if !ok {
      return Refused;
    }
    var candidates := RecognisedNamesOf(dir.disk, file);
    if candidates == {} {
      return NothingPending;
    }
    var name :| name in candidates;
    if candidates != {name} {
      Several(candidates, name);
      return Ambiguous;
    }
    var artifact := dir.Read(name, bound);
    if artifact.Missing? {
      return NothingPending; // a peer finished its cleanup after the listing
    }
    if artifact.Unreadable? || artifact.artifact.links != 1 {
      return Refused;
    }
    ok := dir.RequireBoundDirectory(bound);
    if !ok {
      return Refused;
    }
    return Pending(PendingMutation(Recognise(file, name).value, artifact.artifact.snapshot));
  }

  lemma Several(c: set<string>, n: string)
    requires n in c && c != {n}
    ensures |c| > 1
  {
    assert !(c <= {n});
    var m :| m in c && m != n;
    assert {n, m} <= c && |{n, m}| == 2;
    SubsetSize({n, m}, c);
  }

  /** A crashed update whose target is missing reads back as a `previous` mutation of the original, when
      its quarantine is the only recognised name. */
  lemma PendingIsTheOriginal(s: Session, t: seq<Step>, d: Disk, n: string, m: PendingMutation)
    requires s.kind.Previous? && s.file in s.start.names && s.file !in d.names && Recoverable(s, t, d)
    requires RecognisedNamesOf(d, s.file) == {n}
    requires Recognise(s.file, n) == Some(m.kind) && SnapshotAt(d, n) == Some(m.snapshot)
    ensures m.kind == Previous && m.snapshot.inode == s.start.names[s.file]
  {
    var p :| ShelteredAs(s, d, p);
    assert p in RecognisedNamesOf(d, s.file);
  }
}
