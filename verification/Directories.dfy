/** The directory as the running process sees it: system calls that may be refused, reads that may
    fail, and hooks at which other processes act. */
module Directories {
  import opened Wrappers
  import opened Disks

  datatype ReadResult = Unreadable | Missing | Found(artifact: Artifact)

  ghost predicate Extends(t: seq<Step>, u: seq<Step>) {
    t <= u && (Committed(t) ==> Committed(u))
  }

  /** How many hooks threw and calls or reads failed without cause so far, and how many steps had been taken when the last
      of them did. */
  datatype Faults = Faults(count: nat, last: nat)

  ghost predicate Later(a: Faults, b: Faults) {
    a.count <= b.count && (a.count == b.count ==> a == b)
  }

  /** Any further fault came when `n` steps had been taken. */
  ghost predicate LaterAt(a: Faults, b: Faults, n: nat) {
    Later(a, b) && (a != b ==> b.last == n)
  }

  /** The last step took the target away. */
  ghost predicate JustTaken(t: seq<Step>, file: string) {
    t != [] && t[|t| - 1].action.Rename? && t[|t| - 1].action.src == file
  }

  /** After `n` steps the target had been taken away, and nothing but the next hook had come since. */
  ghost predicate Gap(t: seq<Step>, file: string, n: nat) {
    2 <= n <= |t| && t[n - 1].action.Interference? && JustTaken(t[..n - 1], file)
  }

  lemma GapStays(t: seq<Step>, u: seq<Step>, file: string, n: nat)
    requires t <= u && Gap(t, file, n)
    ensures Gap(u, file, n)
  {
    assert u[n - 1] == t[n - 1] && u[..n - 1] == t[..n - 1];
  }

  /** At most one fault so far, and not in the hook or the check right after the target was taken away. */
  ghost predicate SingleFaultElsewhere(t: seq<Step>, faults: Faults, file: string) {
    faults.count == 0 || (faults.count == 1 && !Gap(t, file, faults.last))
  }

  /** On a `quiet` directory hooks change nothing; they may still throw. */
  class Directory {
    var disk: World
    const quiet: bool
    ghost var trace: seq<Step>
    ghost var faults: Faults

    /** Everything that happened so far was safe; the history leads from the disk of the start to the present one. */
    ghost predicate Inv(s: Session)
      reads this`disk, this`trace
    {
      && s.quiet == quiet
      && AllSafe(s, trace) && Anchored(s, trace, disk)
      && (trace != [] ==> trace[|trace| - 1].after == disk)
      && (quiet ==> Recoverable(s, trace, disk))
    }

    /** A hook: any other process may do anything to the directory, or the hook may throw. */
    method Interfere(ghost s: Session) returns (threw: bool)
      requires Inv(s)
      modifies this
      ensures Inv(s) && Extends(old(trace), trace)
      ensures trace == old(trace) + [Step(Interference, old(disk), disk)]
      ensures quiet ==> disk == old(disk)
      ensures faults == if threw then Faults(old(faults).count + 1, |trace|) else old(faults)
    {
      ghost var before := disk;
      if !quiet {
        disk := *;
      }
      InterferenceIsSafe(s, trace, before, disk);
      CommittedGrows(trace, Step(Interference, before, disk));
      AnchorHolds(s, trace, Step(Interference, before, disk));
      trace := trace + [Step(Interference, before, disk)];
      threw := *;
      if threw {
        faults := Faults(faults.count + 1, |trace|);
      }
    }

    /** The call has validated everything it promises and may now let the original go. */
    ghost method MarkCommit(s: Session)
      requires Inv(s) && disk.parent == s.parent && CommitPoint(s, disk)
      modifies this`trace
      ensures Inv(s) && Extends(old(trace), trace) && Committed(trace)
    {
      hide CommitPoint, AllSafe, Recoverable, Committed, Anchored;
      CommitIsSafe(s, trace, disk);
      CommittedGrows(trace, Step(Commit, disk, disk));
      AnchorHolds(s, trace, Step(Commit, disk, disk));
      trace := trace + [Step(Commit, disk, disk)];
    }

    /** Anything that may fail without touching the directory. */
    method Attempt() returns (ok: bool)
      modifies this`faults
      ensures faults == if ok then old(faults) else Faults(old(faults).count + 1, |trace|)
    {
      ok := *;
      if !ok {
        faults := Faults(faults.count + 1, |trace|);
      }
    }

    /** Read one name; the directory must still be the bound one before and after the read. */
    method Read(n: string, bound: nat) returns (r: ReadResult)
      modifies this`faults
      ensures LaterAt(old(faults), faults, |trace|)
      ensures !r.Unreadable? ==> disk.parent == bound
      ensures r.Missing? ==> n !in disk.names
      ensures r.Found? ==> ArtifactAt(disk, n) == Some(r.artifact)
      ensures faults == old(faults) && disk.parent == bound ==> !r.Unreadable?
    {
      var ok := Attempt();
      if !ok || disk.parent != bound {
        return Unreadable;
      }
      if n !in disk.names {
        return Missing;
      }
      return Found(ArtifactAt(disk, n).value);
    }

    method RequireArtifact(n: string, expected: Artifact, bound: nat) returns (ok: bool)
      modifies this`faults
      ensures LaterAt(old(faults), faults, |trace|)
      ensures ok ==> disk.parent == bound && ArtifactAt(disk, n) == Some(expected)
      ensures faults == old(faults) && disk.parent == bound && ArtifactAt(disk, n) == Some(expected) ==> ok
    {
      var r := Read(n, bound);
      ok := r == Found(expected);
    }

    method RequireAbsent(n: string, bound: nat) returns (ok: bool)
      modifies this`faults
      ensures LaterAt(old(faults), faults, |trace|)
      ensures ok ==> disk.parent == bound && n !in disk.names
      ensures faults == old(faults) && disk.parent == bound && n !in disk.names ==> ok
    {
      var r := Read(n, bound);
      ok := r == Missing;
    }

    method RequireBoundDirectory(bound: nat) returns (ok: bool)
      modifies this`faults
      ensures LaterAt(old(faults), faults, |trace|)
      ensures ok ==> disk.parent == bound
      ensures faults == old(faults) && disk.parent == bound ==> ok
    {
      ok := Attempt();
      ok := ok && disk.parent == bound;
    }

    // System calls. A refused call has no effect.

    method Rename(a: string, b: string) returns (ok: bool)
      modifies this
      ensures LaterAt(old(faults), faults, |old(trace)|)
      ensures !ok ==> disk == old(disk) && trace == old(trace)
      ensures ok ==> a in old(disk).names && disk == Renamed(old(disk), a, b)
      ensures ok ==> trace == old(trace) + [Step(Action.Rename(a, b), old(disk), disk)]
      ensures faults == old(faults) && a in old(disk).names ==> ok
    {
      ok := Attempt();
      if a !in disk.names {
        ok := false;
      }
      if ok {
        trace := trace + [Step(Action.Rename(a, b), disk, Renamed(disk, a, b))];
        disk := Renamed(disk, a, b);
      }
    }

    /** Never replaces an existing name. */
    method Link(a: string, b: string) returns (ok: bool)
      modifies this
      ensures LaterAt(old(faults), faults, |old(trace)|)
      ensures !ok ==> disk == old(disk) && trace == old(trace)
      ensures ok ==> a in old(disk).names && b !in old(disk).names && disk == Linked(old(disk), a, b)
      ensures ok ==> trace == old(trace) + [Step(Action.Link(a, b), old(disk), disk)]
      ensures faults == old(faults) && a in old(disk).names && b !in old(disk).names ==> ok
    {
      ok := Attempt();
      if a !in disk.names || b in disk.names {
        ok := false;
      }
      if ok {
        trace := trace + [Step(Action.Link(a, b), disk, Linked(disk, a, b))];
        disk := Linked(disk, a, b);
      }
    }

    method Unlink(a: string) returns (ok: bool)
      modifies this
      ensures LaterAt(old(faults), faults, |old(trace)|)
      ensures !ok ==> disk == old(disk) && trace == old(trace)
      ensures ok ==> a in old(disk).names && disk == Removed(old(disk), a)
      ensures ok ==> trace == old(trace) + [Step(Action.Unlink(a), old(disk), disk)]
      ensures faults == old(faults) && a in old(disk).names ==> ok
    {
      ok := Attempt();
      if a !in disk.names {
        ok := false;
      }
      if ok {
        trace := trace + [Step(Action.Unlink(a), disk, Removed(disk, a))];
        disk := Removed(disk, a);
      }
    }

    /** Exclusive creation of an empty file under a new name. */
    method Create(n: string, mode: nat) returns (created: Option<Inode>)
      modifies this
      ensures LaterAt(old(faults), faults, |old(trace)|)
      ensures created.None? ==> disk == old(disk) && trace == old(trace)
      ensures created.Some? ==>
                && n !in old(disk).names && created.value !in old(disk).files
                && disk == Created(old(disk), n, created.value, mode)
                && trace == old(trace) + [Step(Action.Create(n, created.value), old(disk), disk)]
      ensures faults == old(faults) && n !in old(disk).names ==> created.Some?
    {
      var ok := Attempt();
      if !ok || n in disk.names {
        return None;
      }
      var i := UnusedInode(disk);
      trace := trace + [Step(Action.Create(n, i), disk, Created(disk, n, i, mode))];
      disk := Created(disk, n, i, mode);
      return Some(i);
    }

    /** Set the contents and mode of an open file. */
    method Store(i: Inode, bytes: string, mode: nat)
      requires i in disk.files
      modifies this`disk, this`trace
      ensures disk == Stored(old(disk), i, bytes, mode)
      ensures trace == old(trace) + [Step(Action.Store(i), old(disk), disk)]
    {
      trace := trace + [Step(Action.Store(i), disk, Stored(disk, i, bytes, mode))];
      disk := Stored(disk, i, bytes, mode);
    }
  }

  /** Some inode number that the disk does not use. */
  method UnusedInode(d: Disk) returns (i: Inode)
    ensures i !in d.files
  {
    var remaining := d.files.Keys;
    i := 0;
    while remaining != {}
      invariant forall j | j in d.files.Keys && j !in remaining :: j < i
      decreases |remaining|
    {
      var j :| j in remaining;
      if j >= i {
        i := j + 1;
      }
      remaining := remaining - {j};
    }
  }
}
