/** The verdict on a host turn: completed, interrupted, or nothing that can be relied on. */
module DesktopOutcomes {
  import opened Wrappers
  import opened TranscriptReader
  import opened DesktopTurns

  datatype Outcome = Completion | Interruption | Unknown

  datatype Scan = Dropped | Scan(started: bool, workspace: bool, interrupted: bool)

  function Look(s: Scan, row: Row, turnId: string): Scan {
    if s.Dropped? || !OfTurn(row, turnId) then s
    else if IsStart(row, turnId) then
      if s.started || !GoodStart(row, turnId) then Dropped else s.(started := true)
    else if !s.started then s
    else if IsContext(row, turnId) then
      if row.payload.value.inWorktree then s.(workspace := true) else Dropped
    else if IsAbort(row, turnId) then s.(interrupted := true) else s
  }

  function Looked(rows: seq<Row>, turnId: string): Scan {
    if rows == [] then Scan(false, false, false) else Look(Looked(rows[..|rows| - 1], turnId), rows[|rows| - 1], turnId)
  }

  lemma {:induction false} DroppedStays(rows: seq<Row>, turnId: string, n: nat)
    requires n <= |rows| && Looked(rows[..n], turnId).Dropped?
    ensures Looked(rows, turnId).Dropped?
    decreases |rows| - n
  {
    if n == |rows| {
      assert rows[..n] == rows;
    } else {
      assert rows[..n + 1][..n] == rows[..n];
      DroppedStays(rows, turnId, n + 1);
    }
  }

  // What the scan says.

  ghost predicate ContextsFit(rows: seq<Row>, turnId: string, n: nat, i: nat) {
    n <= |rows| && forall k | i < k < n && IsContext(rows[k], turnId) :: rows[k].payload.value.inWorktree
  }

  ghost predicate HasContext(rows: seq<Row>, turnId: string, n: nat, i: nat) {
    n <= |rows| && exists k :: i < k < n && IsContext(rows[k], turnId)
  }

  ghost predicate HasAbort(rows: seq<Row>, turnId: string, n: nat, i: nat) {
    n <= |rows| && exists k :: i < k < n && IsAbort(rows[k], turnId)
  }

  /** One proper start, at i, and every working directory named after it is the expected one. */
  ghost predicate StartFits(rows: seq<Row>, turnId: string, n: nat, i: nat) {
    StartedWithin(rows, turnId, n, i) && ContextsFit(rows, turnId, n, i)
  }

  ghost predicate Shows(s: Scan, rows: seq<Row>, turnId: string, n: nat) {
    if s.Dropped? then forall i: nat, m: nat | n <= m :: !StartFits(rows, turnId, m, i)
    else if !s.started then s == Scan(false, false, false) && Unstarted(rows, turnId, n)
    else exists i: nat :: ShowsFrom(s, rows, turnId, n, i)
  }

  ghost predicate ShowsFrom(s: Scan, rows: seq<Row>, turnId: string, n: nat, i: nat)
    requires s.Scan?
  {
    && StartFits(rows, turnId, n, i)
    && s.workspace == HasContext(rows, turnId, n, i) && s.interrupted == HasAbort(rows, turnId, n, i)
  }

  lemma OneMoreRow(rows: seq<Row>, turnId: string, n: nat, i: nat)
    requires i < n < |rows|
    ensures HasContext(rows, turnId, n + 1, i) == (HasContext(rows, turnId, n, i) || IsContext(rows[n], turnId))
    ensures HasAbort(rows, turnId, n + 1, i) == (HasAbort(rows, turnId, n, i) || IsAbort(rows[n], turnId))
    ensures ContextsFit(rows, turnId, n + 1, i)
            == (ContextsFit(rows, turnId, n, i) && (IsContext(rows[n], turnId) ==> rows[n].payload.value.inWorktree))
  {
  }

  lemma LookFromUnstarted(s: Scan, rows: seq<Row>, turnId: string, n: nat)
    requires n < |rows| && Shows(s, rows, turnId, n) && s.Scan? && !s.started
    ensures Shows(Look(s, rows[n], turnId), rows, turnId, n + 1)
  {
    if IsStart(rows[n], turnId) {
      if GoodStart(rows[n], turnId) {
        assert ShowsFrom(s.(started := true), rows, turnId, n + 1, n);
      }
    }
  }

  lemma LookFromStarted(s: Scan, rows: seq<Row>, turnId: string, n: nat, i: nat)
    requires n < |rows| && s.Scan? && s.started && ShowsFrom(s, rows, turnId, n, i)
    ensures Shows(Look(s, rows[n], turnId), rows, turnId, n + 1)
  {
    OneMoreRow(rows, turnId, n, i);
    var t := Look(s, rows[n], turnId);
    if IsStart(rows[n], turnId) || (IsContext(rows[n], turnId) && !rows[n].payload.value.inWorktree) {
      assert IsStart(rows[i], turnId);
      NoOtherStart(rows, turnId, n, i);
    } else {
      hide HasContext, HasAbort, ContextsFit;
      assert StartedWithin(rows, turnId, n + 1, i);
      assert ShowsFrom(t, rows, turnId, n + 1, i);
    }
  }

  lemma NoOtherStart(rows: seq<Row>, turnId: string, n: nat, i: nat)
    requires i < n < |rows| && IsStart(rows[i], turnId)
    requires IsStart(rows[n], turnId) || (IsContext(rows[n], turnId) && !rows[n].payload.value.inWorktree)
    ensures forall j: nat, m: nat | n + 1 <= m :: !StartFits(rows, turnId, m, j)
  {
  }

  lemma {:induction false} LookedShows(rows: seq<Row>, turnId: string, n: nat)
    requires n <= |rows|
    ensures Shows(Looked(rows[..n], turnId), rows, turnId, n)
  {
    if n > 0 {
      LookedShows(rows, turnId, n - 1);
      assert rows[..n][..n - 1] == rows[..n - 1];
      var s := Looked(rows[..n - 1], turnId);
      if s.Scan? && !s.started {
        LookFromUnstarted(s, rows, turnId, n - 1);
      } else if s.Scan? {
        var i: nat :| ShowsFrom(s, rows, turnId, n - 1, i);
        LookFromStarted(s, rows, turnId, n - 1, i);
      }
    }
  }

  // The verdict.

  /** The rows prove a turn in the expected working directory. */
  ghost predicate Proven(rows: seq<Row>, turnId: string, i: nat) {
    StartFits(rows, turnId, |rows|, i) && HasContext(rows, turnId, |rows|, i)
  }

  /** What an outcome means, without the loop. */
  ghost predicate Means(o: Outcome, rows: seq<Row>, turnId: string) {
    match o
    case Interruption => exists i: nat :: Proven(rows, turnId, i) && HasAbort(rows, turnId, |rows|, i)
    case Completion => exists i: nat :: Proven(rows, turnId, i) && exists t :: CompletedAt(rows, turnId, |rows|, t)
    case Unknown => forall i: nat | Proven(rows, turnId, i) ::
                      !HasAbort(rows, turnId, |rows|, i) && forall t :: !CompletedAt(rows, turnId, |rows|, t)
  }

  function Verdict(rows: seq<Row>, turnId: string): Outcome {
    var s := Looked(rows, turnId);
    if s.Dropped? || !s.started || !s.workspace then Unknown
    else if s.interrupted then Interruption
    else if Completed(rows, turnId).Some? then Completion else Unknown
  }

  /** The verdict is the outcome that the rows mean. */
  lemma VerdictMeans(rows: seq<Row>, turnId: string)
    ensures Means(Verdict(rows, turnId), rows, turnId)
  {
    LookedShows(rows, turnId, |rows|);
    assert rows[..|rows|] == rows;
    forall t
      ensures Completed(rows, turnId) == Some(t) <==> CompletedAt(rows, turnId, |rows|, t)
    {
      CompletedExactly(rows, turnId, t);
    }
    hide Looked, Completed, CompletedAt, HasAbort, HasContext, ContextsFit;
    var s := Looked(rows, turnId);
    if s.Scan? && s.started {
      var i: nat :| ShowsFrom(s, rows, turnId, |rows|, i);
      forall j: nat | Proven(rows, turnId, j)
        ensures i == j
      {
        assert IsStart(rows[i], turnId);
      }
      if s.workspace {
        assert Proven(rows, turnId, i);
        if Completed(rows, turnId).Some? {
          assert CompletedAt(rows, turnId, |rows|, Completed(rows, turnId).value);
        }
      }
    } else if s.Scan? {
      NothingProven(rows, turnId);
    }
  }

  lemma NothingProven(rows: seq<Row>, turnId: string)
    requires Unstarted(rows, turnId, |rows|)
    ensures forall i: nat :: !Proven(rows, turnId, i)
  {
  }

  /** Outcomes exclude each other: an interrupted turn is never reported as completed. */
  lemma InterruptedIsNotCompleted(rows: seq<Row>, turnId: string)
    ensures !(Means(Interruption, rows, turnId) && Means(Completion, rows, turnId))
  {
    if Means(Completion, rows, turnId) {
      var t :| CompletedAt(rows, turnId, |rows|, t);
      forall k | 0 <= k < |rows|
        ensures !IsAbort(rows[k], turnId)
      {
      }
    }
  }

  /** The loop over the retained entries, with its early returns. */
  method ReadDesktopTurnOutcome(rows: seq<Row>, turnId: string) returns (o: Outcome)
    ensures o == Verdict(rows, turnId) && Means(o, rows, turnId)
  {
    hide Means;
    VerdictMeans(rows, turnId);
    var started, workspace, interrupted := false, false, false;
    for i := 0 to |rows|
      invariant Looked(rows[..i], turnId) == Scan(started, workspace, interrupted)
    {
      var row := rows[i];
      assert rows[..i + 1][..i] == rows[..i];
      if !OfTurn(row, turnId) {
        continue;
      }
      if IsStart(row, turnId) {
        if started || !GoodStart(row, turnId) {
          DroppedStays(rows, turnId, i + 1);
          return Unknown;
        }
        started := true;
      }
      if !started {
        continue;
      }
      if IsContext(row, turnId) {
        if !row.payload.value.inWorktree {
          DroppedStays(rows, turnId, i + 1);
          return Unknown;
        }
        workspace := true;
      }
      if IsAbort(row, turnId) {
        interrupted := true;
      }
    }
    assert rows[..|rows|] == rows;
    if !started || !workspace {
      return Unknown;
    }
    if interrupted {
      return Interruption;
    }
    var completed := CompletedDesktopTurn(true, rows, turnId);
    return if completed.Some? then Completion else Unknown;
  }

  /** Scanning a whole transcript in bounded memory gives the verdict on all its rows. */
  lemma VerdictFromRetained(rows: seq<Row>, turnId: string)
    ensures Verdict(Filtered(rows, turnId), turnId) == Verdict(rows, turnId)
  {
    hide Retained, Look, Looked, Completed, Filtered;
    CompletionFromRetained(rows, turnId);
    LookedFromRetained(rows, turnId);
  }

  lemma {:induction false} LookedFromRetained(rows: seq<Row>, turnId: string)
    ensures Looked(Filtered(rows, turnId), turnId) == Looked(rows, turnId)
  {
    if rows != [] {
      var n := |rows| - 1;
      LookedFromRetained(rows[..n], turnId);
      hide Retained, Look;
      var front := Filtered(rows[..n], turnId);
      if Retained(rows[n], turnId) {
        assert (front + [rows[n]])[..|front|] == front;
      } else {
        DroppedIsInvisible(Looked(rows[..n], turnId), rows[n], turnId);
        assert front + [] == front;
      }
    }
  }

  lemma DroppedIsInvisible(s: Scan, row: Row, turnId: string)
    requires !Retained(row, turnId)
    ensures Look(s, row, turnId) == s
  {
  }

  // From the bytes of a transcript.

  /** All rows of a list of lines; a line that does not parse counts as no record. */
  function AllRows(lines: seq<seq<Byte>>, parse: Parser): seq<Row> {
    if lines == [] then []
    else (if parse(lines[0]).Some? then [parse(lines[0]).value] else [Other]) + AllRows(lines[1..], parse)
  }

  lemma {:induction false} FilteredHead(row: Row, rows: seq<Row>, turnId: string)
    ensures Filtered([row] + rows, turnId) == (if Retained(row, turnId) then [row] else []) + Filtered(rows, turnId)
  {
    if rows == [] {
      assert [row] + rows == [row] && [row][..0] == [];
    } else {
      var n := |rows| - 1;
      hide Retained;
      FilteredHead(row, rows[..n], turnId);
      assert ([row] + rows)[..n + 1] == [row] + rows[..n];
    }
  }

  lemma {:induction false} RetainedIsFiltered(lines: seq<seq<Byte>>, parse: Parser, turnId: string)
    ensures RetainedRows(lines, parse, turnId) == Filtered(AllRows(lines, parse), turnId)
  {
    if lines != [] {
      RetainedIsFiltered(lines[1..], parse, turnId);
      var row := if parse(lines[0]).Some? then parse(lines[0]).value else Other;
      FilteredHead(row, AllRows(lines[1..], parse), turnId);
    }
  }

  /** The main result: whatever the sizes of the reads, a scan that succeeds yields the verdict that all rows of the
      transcript mean. */
  lemma TranscriptVerdict(file: seq<Byte>, parse: Parser, turnId: string, rows: seq<Row>)
    requires TranscriptReader.Scan([], file, parse, turnId) == Ok(rows)
    ensures Means(Verdict(rows, turnId), AllRows(Lines(file), parse), turnId)
    ensures Verdict(rows, turnId) == Verdict(AllRows(Lines(file), parse), turnId)
  {
    hide Means, Verdict, RetainedRows, AllRows, Lines, TranscriptReader.Scan, GoodLines;
    ScanExact([], file, parse, turnId);
    var kept := RetainedRows(Lines(file), parse, turnId);
    assert [] + kept == kept;
    RetainedIsFiltered(Lines(file), parse, turnId);
    VerdictFromRetained(AllRows(Lines(file), parse), turnId);
    VerdictMeans(AllRows(Lines(file), parse), turnId);
  }
}
