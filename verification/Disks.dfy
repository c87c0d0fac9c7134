/** A directory as a value: names bound to inodes, inodes bound to contents. The history of one
    conditional mutation is the list of steps taken on it, and `AllSafe` says what every own step keeps. */
module Disks {
  import opened FiniteSets
  import opened Wrappers
  import opened AtomicNames

  type Inode = nat

  /** `outside` counts the links that other directories hold. */
  datatype File = File(bytes: string, mode: nat, outside: nat)

  /** `parent` is the identity of the directory that the path currently leads to. */
  datatype Disk = Disk(parent: nat, names: map<string, Inode>, files: map<Inode, File>)

  datatype Snapshot = Snapshot(inode: Inode, bytes: string, mode: nat)

  datatype Artifact = Artifact(snapshot: Snapshot, links: nat)

  predicate WellFormed(d: Disk) {
    forall n | n in d.names :: d.names[n] in d.files
  }

  type World = d: Disk | WellFormed(d) witness Disk(0, map[], map[])

  function NamesOf(d: Disk, i: Inode): set<string> {
    set n | n in d.names && d.names[n] == i
  }

  function LinkCount(d: Disk, i: Inode): nat {
    |NamesOf(d, i)| + if i in d.files then d.files[i].outside else 0
  }

  function SnapshotOf(d: Disk, i: Inode): Option<Snapshot> {
    if i in d.files then Some(Snapshot(i, d.files[i].bytes, d.files[i].mode)) else None
  }

  function SnapshotAt(d: Disk, n: string): Option<Snapshot> {
    if n in d.names then SnapshotOf(d, d.names[n]) else None
  }

  function ArtifactOf(d: Disk, i: Inode): Option<Artifact> {
    if i in d.files then Some(Artifact(SnapshotOf(d, i).value, LinkCount(d, i))) else None
  }

  function ArtifactAt(d: Disk, n: string): Option<Artifact> {
    if n in d.names then ArtifactOf(d, d.names[n]) else None
  }

  // What an accepted system call does.

  /** Renaming onto another link of the same inode does nothing; any other existing name is replaced. */
  function Renamed(d: Disk, a: string, b: string): Disk
    requires a in d.names
  {
    if b in d.names && d.names[b] == d.names[a] then d
    else d.(names := (d.names - {a})[b := d.names[a]])
  }

  function Linked(d: Disk, a: string, b: string): Disk
    requires a in d.names
  {
    d.(names := d.names[b := d.names[a]])
  }

  function Removed(d: Disk, n: string): Disk {
    d.(names := d.names - {n})
  }

  function Created(d: Disk, n: string, i: Inode, mode: nat): Disk {
    d.(names := d.names[n := i], files := d.files[i := File("", mode, 0)])
  }

  function Stored(d: Disk, i: Inode, bytes: string, mode: nat): Disk
    requires i in d.files
  {
    d.(files := d.files[i := d.files[i].(bytes := bytes, mode := mode)])
  }

  // Histories.

  datatype Action =
    | Interference                        // another process, at a hook
    | Create(n: string, inode: Inode)
    | Store(target: Inode)                // contents or mode of the new file
    | Rename(src: string, dst: string)
    | Link(from: string, to: string)
    | Unlink(removed: string)
    | Commit                              // every validation has passed

  datatype Step = Step(action: Action, before: Disk, after: Disk)

  /** One call: its target, what was planned, the new file it made, the directory it is bound to, the
      kind of quarantine it uses, and the disk it started from. `quiet` says that hooks change nothing. */
  datatype Session = Session(
    file: string, expected: Option<Snapshot>, temp: Option<Inode>, bytes: string, mode: nat,
    parent: nat, kind: QuarantineKind, quiet: bool, start: World)

  /** The planned original, unless its inode number had already been reused for the new file. */
  function Original(s: Session): Option<Inode> {
    if s.expected.Some? && Some(s.expected.value.inode) != s.temp
    then Some(s.expected.value.inode) else None
  }

  ghost predicate Committed(t: seq<Step>) {
    exists k | 0 <= k < |t| :: t[k].action.Commit?
  }

  ghost predicate Released(t: seq<Step>) {
    exists k | 0 <= k < |t| :: t[k].action.Unlink?
  }

  /** The installation has begun: something was linked, or the target was taken away. */
  ghost predicate Begun(s: Session, t: seq<Step>) {
    exists k | 0 <= k < |t| :: Begins(s, t[k])
  }

  predicate Begins(s: Session, st: Step) {
    st.action.Link? || (st.action.Rename? && st.action.src == s.file)
  }

  /** The name holds the new file with exactly the new bytes and mode. */
  predicate HoldsNew(s: Session, d: Disk, n: string) {
    s.temp.Some? && SnapshotAt(d, n) == Some(Snapshot(s.temp.value, s.bytes, s.mode))
  }

  /** The name holds the planned original or the new file, with exactly the bytes and mode it must have. Before the
      installation has begun, an unfinished new file may still be disposed of. */
  ghost predicate Owned(s: Session, t: seq<Step>, d: Disk, n: string) {
    && n in d.names
    && ((s.expected.Some? && SnapshotAt(d, n) == s.expected) || HoldsNew(s, d, n)
        || (Some(d.names[n]) == s.temp && !Begun(s, t)))
  }

  /** The last thing that happened was a hook, and it left inode, bytes, mode and link count at the name alone. */
  ghost predicate Steady(t: seq<Step>, d: Disk, n: string) {
    t != [] && t[|t| - 1].action.Interference? && ArtifactAt(t[|t| - 1].before, n) == ArtifactAt(d, n)
  }

  // What an own rename, link or removal acts on, as rechecked after the last hook.

  ghost predicate MayRename(s: Session, t: seq<Step>, d: Disk, a: string, b: string) {
    && Owned(s, t, d, a) && b !in d.names
    && (a == s.file ==> Steady(t, d, a) && (SnapshotAt(d, a) == s.expected || (HoldsNew(s, d, a) && LinkCount(d, d.names[a]) == 2)))
  }

  ghost predicate MayLink(s: Session, t: seq<Step>, d: Disk, a: string, b: string) {
    && Owned(s, t, d, a) && b !in d.names
    && (SnapshotAt(d, a) == s.expected || (Steady(t, d, a) && HoldsNew(s, d, a) && LinkCount(d, d.names[a]) == 1))
  }

  ghost predicate MayUnlink(s: Session, t: seq<Step>, d: Disk, a: string) {
    Owned(s, t, d, a) && Steady(t, d, a)
  }

  ghost predicate ShelteredAs(s: Session, d: Disk, n: string) {
    && s.file in s.start.names
    && n in d.names && d.names[n] == s.start.names[s.file]
    && n != s.file
    && Recognise(s.file, n) == Some(s.kind)
  }

  /** What the target was bound to at the start sits under a name that the recogniser reads back. */
  ghost predicate Sheltered(s: Session, d: Disk) {
    exists n :: ShelteredAs(s, d, n)
  }

  /** A crash now would leave the original at the target, or under a recognised name. A completed
      deletion may have disposed of it; its cleanup name is unreadable only for all-dots basenames. */
  ghost predicate Recoverable(s: Session, t: seq<Step>, d: Disk) {
    || s.file !in s.start.names
    || s.file in d.names
    || Sheltered(s, d)
    || (s.kind.Deleted? && Committed(t) && (AllDots(s.file) || Released(t)))
  }

  ghost predicate KeepsOriginal(s: Session, t: seq<Step>, before: Disk, after: Disk) {
    Original(s).Some? && LinkCount(before, Original(s).value) > 0 ==>
      LinkCount(after, Original(s).value) > 0 || Committed(t)
  }

  /** The state in which a call may give the original up: an update has its new file linked at the
      target with exactly the new contents; a deletion has the original alone in quarantine. */
  ghost predicate CommitPoint(s: Session, d: Disk) {
    if s.kind.Deleted? then s.file !in d.names && exists n :: n in d.names && SnapshotAt(d, n) == s.expected
    else s.temp.Some? && ArtifactAt(d, s.file) == Some(Artifact(Snapshot(s.temp.value, s.bytes, s.mode), 2))
  }

  ghost predicate OwnStep(s: Session, t: seq<Step>, st: Step) {
    var d := st.before;
    && d.parent == s.parent
    && KeepsOriginal(s, t, d, st.after)
    && match st.action
       case Interference => false
       case Create(n, i) =>
         Some(i) == s.temp && n !in d.names && i !in d.files && exists m :: st.after == Created(d, n, i, m)
       case Store(i) =>
         Some(i) == s.temp && i in d.files && exists b, m :: st.after == Stored(d, i, b, m)
       case Rename(a, b) => MayRename(s, t, d, a, b) && st.after == Renamed(d, a, b)
       case Link(a, b) => MayLink(s, t, d, a, b) && st.after == Linked(d, a, b)
       case Unlink(a) => MayUnlink(s, t, d, a) && st.after == Removed(d, a)
       case Commit => st.after == d && CommitPoint(s, d)
  }

  ghost predicate SafeStep(s: Session, t: seq<Step>, st: Step) {
    && (t != [] ==> t[|t| - 1].after == st.before)
    && WellFormed(st.after)
    && (if st.action.Interference? then s.quiet ==> st.after == st.before else OwnStep(s, t, st))
    && (s.quiet ==> Recoverable(s, t + [st], st.after))
  }

  /** Every step of the history is safe after the steps before it. */
  ghost predicate AllSafe(s: Session, t: seq<Step>) {
    t == [] || (AllSafe(s, t[..|t| - 1]) && SafeStep(s, t[..|t| - 1], t[|t| - 1]))
  }

  lemma Extend(s: Session, t: seq<Step>, st: Step)
    requires AllSafe(s, t) && SafeStep(s, t, st)
    ensures AllSafe(s, t + [st])
  {
  }

  /** Each step of a safe history was safe when it was taken. */
  lemma {:induction false} SafeAt(s: Session, t: seq<Step>, k: nat)
    requires AllSafe(s, t) && k < |t|
    ensures SafeStep(s, t[..k], t[k])
  {
    var u := t[..|t| - 1];
    if k < |t| - 1 {
      SafeAt(s, u, k);
      assert u[..k] == t[..k];
    }
  }

  lemma CommittedGrows(t: seq<Step>, st: Step)
    ensures Committed(t) ==> Committed(t + [st])
    ensures st.action.Commit? ==> Committed(t + [st])
    ensures Released(t) ==> Released(t + [st])
    ensures st.action.Unlink? ==> Released(t + [st])
  {
    var u := t + [st];
    if Committed(t) {
      var k :| 0 <= k < |t| && t[k].action.Commit?;
      assert u[k] == t[k];
    }
    if Released(t) {
      var k :| 0 <= k < |t| && t[k].action.Unlink?;
      assert u[k] == t[k];
    }
    assert u[|t|] == st;
  }

  lemma BegunGrows(s: Session, t: seq<Step>, st: Step)
    ensures Begun(s, t + [st]) <==> Begun(s, t) || Begins(s, st)
  {
    var u := t + [st];
    assert u[|t|] == st;
    assert forall k | 0 <= k < |t| :: u[k] == t[k];
  }

  /** The history starts on the disk on which the call started. */
  ghost predicate Anchored(s: Session, t: seq<Step>, d: Disk) {
    if t == [] then d == s.start else t[0].before == s.start
  }

  lemma AnchorHolds(s: Session, t: seq<Step>, st: Step)
    requires Anchored(s, t, st.before)
    ensures Anchored(s, t + [st], st.after)
  {
  }

  // Link counts.

  lemma RemovedLinks(d: Disk, n: string, i: Inode)
    requires n in d.names
    ensures LinkCount(Removed(d, n), i) == LinkCount(d, i) - if d.names[n] == i then 1 else 0
  {
    assert NamesOf(Removed(d, n), i) == NamesOf(d, i) - {n};
  }

  lemma LinkedLinks(d: Disk, a: string, b: string, i: Inode)
    requires a in d.names && b !in d.names
    ensures LinkCount(Linked(d, a, b), i) == LinkCount(d, i) + if d.names[a] == i then 1 else 0
  {
    assert NamesOf(Linked(d, a, b), i) == NamesOf(d, i) + if d.names[a] == i then {b} else {};
  }

  lemma RenamedLinks(d: Disk, a: string, b: string, i: Inode)
    requires a in d.names && b !in d.names
    ensures LinkCount(Renamed(d, a, b), i) == LinkCount(d, i)
  {
    var names := NamesOf(d, i);
    if d.names[a] == i {
      assert NamesOf(Renamed(d, a, b), i) == (names - {a}) + {b};
    } else {
      assert NamesOf(Renamed(d, a, b), i) == names;
    }
  }

  lemma CreatedLinks(d: Disk, n: string, i: Inode, mode: nat, j: Inode)
    requires WellFormed(d) && n !in d.names && i !in d.files
    ensures LinkCount(Created(d, n, i, mode), j) == if j == i then 1 else LinkCount(d, j)
  {
    var e := Created(d, n, i, mode);
    if j == i {
      assert NamesOf(e, j) == {n};
    } else {
      assert NamesOf(e, j) == NamesOf(d, j);
    }
  }

  lemma StoredLinks(d: Disk, i: Inode, bytes: string, mode: nat, j: Inode)
    requires i in d.files
    ensures LinkCount(Stored(d, i, bytes, mode), j) == LinkCount(d, j)
  {
  }

  lemma NamedIsLinked(d: Disk, n: string)
    requires n in d.names
    ensures LinkCount(d, d.names[n]) > 0
  {
    assert n in NamesOf(d, d.names[n]);
  }

  lemma OnlyName(d: Disk, n: string, m: string)
    requires n in d.names && m in d.names && d.names[n] == d.names[m]
    requires LinkCount(d, d.names[n]) == 1
    ensures n == m
  {
    if n != m {
      assert {n, m} <= NamesOf(d, d.names[n]);
      assert |{n, m}| == 2;
      SubsetSize({n, m}, NamesOf(d, d.names[n]));
    }
  }

  // Own steps that are safe to take.

  lemma RenameIsSafe(s: Session, t: seq<Step>, d: World, a: string, b: string)
    requires AllSafe(s, t) && (t != [] ==> t[|t| - 1].after == d)
    requires d.parent == s.parent && MayRename(s, t, d, a, b)
    requires s.quiet ==> Recoverable(s, t, Renamed(d, a, b))
    ensures AllSafe(s, t + [Step(Rename(a, b), d, Renamed(d, a, b))])
    ensures s.quiet ==> Recoverable(s, t + [Step(Rename(a, b), d, Renamed(d, a, b))], Renamed(d, a, b))
    ensures WellFormed(Renamed(d, a, b))
  {
    var st := Step(Rename(a, b), d, Renamed(d, a, b));
    if Original(s).Some? {
      RenamedLinks(d, a, b, Original(s).value);
    }
    CommittedGrows(t, st);
    Extend(s, t, st);
  }

  lemma LinkIsSafe(s: Session, t: seq<Step>, d: World, a: string, b: string)
    requires AllSafe(s, t) && (t != [] ==> t[|t| - 1].after == d)
    requires d.parent == s.parent && MayLink(s, t, d, a, b)
    requires s.quiet ==> Recoverable(s, t, Linked(d, a, b))
    ensures AllSafe(s, t + [Step(Link(a, b), d, Linked(d, a, b))])
    ensures s.quiet ==> Recoverable(s, t + [Step(Link(a, b), d, Linked(d, a, b))], Linked(d, a, b))
    ensures WellFormed(Linked(d, a, b))
  {
    var st := Step(Link(a, b), d, Linked(d, a, b));
    if Original(s).Some? {
      LinkedLinks(d, a, b, Original(s).value);
    }
    CommittedGrows(t, st);
    Extend(s, t, st);
  }

  /** Removing a name is safe when another link remains, or when the call has committed. */
  lemma UnlinkIsSafe(s: Session, t: seq<Step>, d: World, a: string)
    requires AllSafe(s, t) && (t != [] ==> t[|t| - 1].after == d)
    requires d.parent == s.parent && MayUnlink(s, t, d, a)
    requires Original(s) == Some(d.names[a]) ==> LinkCount(d, d.names[a]) >= 2 || Committed(t)
    requires s.quiet ==> Recoverable(s, t + [Step(Unlink(a), d, Removed(d, a))], Removed(d, a))
    ensures AllSafe(s, t + [Step(Unlink(a), d, Removed(d, a))])
    ensures WellFormed(Removed(d, a))
  {
    var st := Step(Unlink(a), d, Removed(d, a));
    if Original(s).Some? {
      RemovedLinks(d, a, Original(s).value);
    }
    CommittedGrows(t, st);
    Extend(s, t, st);
  }

  lemma CommitIsSafe(s: Session, t: seq<Step>, d: World)
    requires AllSafe(s, t) && (t != [] ==> t[|t| - 1].after == d)
    requires d.parent == s.parent && CommitPoint(s, d)
    requires s.quiet ==> Recoverable(s, t, d)
    ensures AllSafe(s, t + [Step(Commit, d, d)])
    ensures s.quiet ==> Recoverable(s, t + [Step(Commit, d, d)], d)
    ensures Committed(t + [Step(Commit, d, d)])
  {
  }

  lemma InterferenceIsSafe(s: Session, t: seq<Step>, d: World, e: World)
    requires AllSafe(s, t) && (t != [] ==> t[|t| - 1].after == d)
    requires s.quiet ==> e == d && Recoverable(s, t, d)
    ensures AllSafe(s, t + [Step(Interference, d, e)])
    ensures s.quiet ==> Recoverable(s, t + [Step(Interference, d, e)], e)
  {
  }

  lemma CreateIsSafe(s: Session, t: seq<Step>, d: World, n: string, i: Inode, mode: nat)
    requires AllSafe(s, t) && (t != [] ==> t[|t| - 1].after == d)
    requires d.parent == s.parent && s.temp == Some(i) && n !in d.names && i !in d.files
    requires s.quiet ==> Recoverable(s, t, Created(d, n, i, mode))
    ensures AllSafe(s, t + [Step(Create(n, i), d, Created(d, n, i, mode))])
    ensures s.quiet ==> Recoverable(s, t + [Step(Create(n, i), d, Created(d, n, i, mode))], Created(d, n, i, mode))
    ensures WellFormed(Created(d, n, i, mode))
  {
    var st := Step(Create(n, i), d, Created(d, n, i, mode));
    if Original(s).Some? {
      CreatedLinks(d, n, i, mode, Original(s).value);
    }
    CommittedGrows(t, st);
    Extend(s, t, st);
  }

  lemma StoreIsSafe(s: Session, t: seq<Step>, d: World, i: Inode, bytes: string, mode: nat)
    requires AllSafe(s, t) && (t != [] ==> t[|t| - 1].after == d)
    requires d.parent == s.parent && s.temp == Some(i) && i in d.files
    requires s.quiet ==> Recoverable(s, t, Stored(d, i, bytes, mode))
    ensures AllSafe(s, t + [Step(Store(i), d, Stored(d, i, bytes, mode))])
    ensures s.quiet ==> Recoverable(s, t + [Step(Store(i), d, Stored(d, i, bytes, mode))], Stored(d, i, bytes, mode))
    ensures WellFormed(Stored(d, i, bytes, mode))
  {
  }
}
