/** What a transcript's rows say about one turn, and that the retained rows say the same. */
module DesktopTurns {
  import opened Wrappers
  import opened TranscriptReader

  // Rows of a turn.

  predicate OfTurn(row: Row, turnId: string) {
    row.Row? && row.payload.Some? && row.payload.value.turnId == Some(turnId)
  }

  predicate IsEvent(row: Row, turnId: string, name: string) {
    OfTurn(row, turnId) && row.kind == "event_msg" && row.payload.value.eventType == Text(name)
  }

  predicate IsStart(row: Row, turnId: string) { IsEvent(row, turnId, "task_started") }

  predicate IsComplete(row: Row, turnId: string) { IsEvent(row, turnId, "task_complete") }

  predicate IsAbort(row: Row, turnId: string) { IsEvent(row, turnId, "turn_aborted") }

  predicate IsContext(row: Row, turnId: string) { OfTurn(row, turnId) && row.kind == "turn_context" }

  predicate GoodStart(row: Row, turnId: string) {
    IsStart(row, turnId) && row.payload.value.rootTurnId == Some(turnId) && row.payload.value.startedAt.Some?
  }

  predicate GoodComplete(row: Row, turnId: string, startedAt: int) {
    && IsComplete(row, turnId) && row.payload.value.rootTurnId == Some(turnId)
    && row.payload.value.completedAt.Some? && row.payload.value.completedAt.value >= startedAt
  }

  // Completion: the loop, as a step function.

  datatype Times = Times(startedAt: int, completedAt: int)

  datatype Progress = Rejected | Seen(startedAt: Option<int>, completedAt: Option<int>)

  function Step(p: Progress, row: Row, turnId: string): Progress {
    if p.Rejected? then p
    else if IsAbort(row, turnId) then Rejected
    else if IsStart(row, turnId) then
      if p.startedAt.Some? || !GoodStart(row, turnId) then Rejected else p.(startedAt := row.payload.value.startedAt)
    else if IsComplete(row, turnId) then
      if p.startedAt.None? || p.completedAt.Some? || !GoodComplete(row, turnId, p.startedAt.value) then Rejected
      else p.(completedAt := row.payload.value.completedAt)
    else p
  }

  function Progressed(rows: seq<Row>, turnId: string): Progress {
    if rows == [] then Seen(None, None) else Step(Progressed(rows[..|rows| - 1], turnId), rows[|rows| - 1], turnId)
  }

  function Completed(rows: seq<Row>, turnId: string): Option<Times> {
    var p := Progressed(rows, turnId);
    if p.Seen? && p.startedAt.Some? && p.completedAt.Some? then Some(Times(p.startedAt.value, p.completedAt.value)) else None
  }

  /** The loop returns early; that agrees with going on in the rejected state. */
  method CompletedDesktopTurn(hostSession: bool, rows: seq<Row>, turnId: string) returns (r: Option<Times>)
    ensures r == if hostSession then Completed(rows, turnId) else None
  {
    if !hostSession {
      return None;
    }
    var startedAt, completedAt: Option<int> := None, None;
    for i := 0 to |rows|
      invariant Progressed(rows[..i], turnId) == Seen(startedAt, completedAt)
    {
      var row := rows[i];
      assert rows[..i + 1][..i] == rows[..i];
      var p := Step(Seen(startedAt, completedAt), row, turnId);
      if p.Rejected? {
        RejectedStays(rows, turnId, i + 1);
        return None;
      }
      startedAt, completedAt := p.startedAt, p.completedAt;
    }
    assert rows[..|rows|] == rows;
    r := if startedAt.None? || completedAt.None? then None else Some(Times(startedAt.value, completedAt.value));
  }

  lemma {:induction false} RejectedStays(rows: seq<Row>, turnId: string, n: nat)
    requires n <= |rows| && Progressed(rows[..n], turnId).Rejected?
    ensures Progressed(rows, turnId).Rejected?
    decreases |rows| - n
  {
    if n == |rows| {
      assert rows[..n] == rows;
    } else {
      assert rows[..n + 1][..n] == rows[..n];
      RejectedStays(rows, turnId, n + 1);
    }
  }

  // Completion: its meaning.

  /** Among the first n rows: one start, at i, one completion after it, at j, and no abort. */
  ghost predicate CompletedWithin(rows: seq<Row>, turnId: string, n: nat, i: nat, j: nat) {
    && i < j < n <= |rows|
    && StartedWithin(rows, turnId, n, i)
    && GoodComplete(rows[j], turnId, rows[i].payload.value.startedAt.value)
    && (forall k | 0 <= k < n :: (IsComplete(rows[k], turnId) ==> k == j) && !IsAbort(rows[k], turnId))
  }

  ghost predicate StartedWithin(rows: seq<Row>, turnId: string, n: nat, i: nat) {
    && i < n <= |rows| && GoodStart(rows[i], turnId)
    && (forall k | 0 <= k < n :: IsStart(rows[k], turnId) ==> k == i)
  }

  ghost predicate Quiet(rows: seq<Row>, turnId: string, n: nat) {
    n <= |rows| && forall k | 0 <= k < n :: !IsComplete(rows[k], turnId) && !IsAbort(rows[k], turnId)
  }

  ghost predicate Unstarted(rows: seq<Row>, turnId: string, n: nat) {
    n <= |rows| && forall k | 0 <= k < n :: !IsStart(rows[k], turnId)
  }

  /** No extension of the first n rows shows a completed turn. */
  ghost predicate Hopeless(rows: seq<Row>, turnId: string, n: nat) {
    forall i: nat, j: nat, m: nat | n <= m :: !CompletedWithin(rows, turnId, m, i, j)
  }

  ghost predicate StartedAt(rows: seq<Row>, turnId: string, n: nat, a: int) {
    exists i: nat :: StartedWithin(rows, turnId, n, i) && rows[i].payload.value.startedAt.value == a
  }

  ghost predicate CompletedAt(rows: seq<Row>, turnId: string, n: nat, t: Times) {
    exists i: nat, j: nat :: CompletedWithin(rows, turnId, n, i, j) && HasTimes(rows, turnId, i, j, t)
  }

  ghost predicate HasTimes(rows: seq<Row>, turnId: string, i: nat, j: nat, t: Times) {
    && i < |rows| && GoodStart(rows[i], turnId) && rows[i].payload.value.startedAt.value == t.startedAt
    && j < |rows| && GoodComplete(rows[j], turnId, t.startedAt) && rows[j].payload.value.completedAt.value == t.completedAt
  }

  /** What each state of the loop says about the rows before it. */
  ghost predicate Says(p: Progress, rows: seq<Row>, turnId: string, n: nat) {
    if p.Rejected? then Hopeless(rows, turnId, n)
    else if p.startedAt.None? then p.completedAt.None? && Quiet(rows, turnId, n) && Unstarted(rows, turnId, n)
    else if p.completedAt.None? then Quiet(rows, turnId, n) && StartedAt(rows, turnId, n, p.startedAt.value)
    else CompletedAt(rows, turnId, n, Times(p.startedAt.value, p.completedAt.value))
  }

  lemma AbortIsHopeless(rows: seq<Row>, turnId: string, n: nat)
    requires n < |rows| && IsAbort(rows[n], turnId)
    ensures Hopeless(rows, turnId, n + 1)
  {
  }

  lemma BadStartIsHopeless(rows: seq<Row>, turnId: string, n: nat)
    requires n < |rows| && IsStart(rows[n], turnId)
    requires !GoodStart(rows[n], turnId) || exists k: nat :: k < n && IsStart(rows[k], turnId)
    ensures Hopeless(rows, turnId, n + 1)
  {
  }

  lemma BadCompleteIsHopeless(rows: seq<Row>, turnId: string, n: nat, i: nat)
    requires n < |rows| && IsComplete(rows[n], turnId) && StartedWithin(rows, turnId, n, i)
    requires !GoodComplete(rows[n], turnId, rows[i].payload.value.startedAt.value)
    ensures Hopeless(rows, turnId, n + 1)
  {
  }

  lemma StepFromUnstarted(p: Progress, rows: seq<Row>, turnId: string, n: nat)
    requires n < |rows| && Says(p, rows, turnId, n) && p.Seen? && p.startedAt.None?
    ensures Says(Step(p, rows[n], turnId), rows, turnId, n + 1)
  {
  }

  lemma StepFromStarted(p: Progress, rows: seq<Row>, turnId: string, n: nat)
    requires n < |rows| && Says(p, rows, turnId, n) && p.Seen? && p.startedAt.Some? && p.completedAt.None?
    ensures Says(Step(p, rows[n], turnId), rows, turnId, n + 1)
  {
    hide Hopeless;
    var row, a := rows[n], p.startedAt.value;
    var i: nat :| StartedWithin(rows, turnId, n, i) && rows[i].payload.value.startedAt.value == a;
    if IsAbort(row, turnId) {
      AbortIsHopeless(rows, turnId, n);
    } else if IsStart(row, turnId) {
      assert IsStart(rows[i], turnId);
      BadStartIsHopeless(rows, turnId, n);
    } else if IsComplete(row, turnId) {
      if !GoodComplete(row, turnId, a) {
        BadCompleteIsHopeless(rows, turnId, n, i);
      } else {
        assert CompletedWithin(rows, turnId, n + 1, i, n);
        assert HasTimes(rows, turnId, i, n, Times(a, row.payload.value.completedAt.value));
      }
    } else {
      assert StartedWithin(rows, turnId, n + 1, i);
    }
  }

  lemma StepFromCompleted(p: Progress, rows: seq<Row>, turnId: string, n: nat)
    requires n < |rows| && Says(p, rows, turnId, n) && p.Seen? && p.startedAt.Some? && p.completedAt.Some?
    ensures Says(Step(p, rows[n], turnId), rows, turnId, n + 1)
  {
  }

  lemma {:induction false} ProgressSays(rows: seq<Row>, turnId: string, n: nat)
    requires n <= |rows|
    ensures Says(Progressed(rows[..n], turnId), rows, turnId, n)
  {
    if n > 0 {
      ProgressSays(rows, turnId, n - 1);
      assert rows[..n][..n - 1] == rows[..n - 1];
      var p := Progressed(rows[..n - 1], turnId);
      hide Says, Step;
      if p.Rejected? {
        StillHopeless(p, rows, turnId, n - 1);
      } else if p.startedAt.None? {
        StepFromUnstarted(p, rows, turnId, n - 1);
      } else if p.completedAt.None? {
        StepFromStarted(p, rows, turnId, n - 1);
      } else {
        StepFromCompleted(p, rows, turnId, n - 1);
      }
    }
  }

  lemma StillHopeless(p: Progress, rows: seq<Row>, turnId: string, n: nat)
    requires n < |rows| && Says(p, rows, turnId, n) && p.Rejected?
    ensures Says(Step(p, rows[n], turnId), rows, turnId, n + 1)
  {
  }

  /** A turn counts as completed exactly when the rows hold one start and one later completion, both of this turn as
      root and in order of time, and no abort anywhere; its times are theirs. */
  lemma CompletedExactly(rows: seq<Row>, turnId: string, t: Times)
    ensures Completed(rows, turnId) == Some(t) <==> CompletedAt(rows, turnId, |rows|, t)
  {
    ProgressSays(rows, turnId, |rows|);
    assert rows[..|rows|] == rows;
    hide Progressed, IsEvent;
    if CompletedAt(rows, turnId, |rows|, t) {
      var i: nat, j: nat :| CompletedWithin(rows, turnId, |rows|, i, j) && HasTimes(rows, turnId, i, j, t);
      assert IsStart(rows[i], turnId) && IsComplete(rows[j], turnId);
    }
  }

  // The retained rows.

  function Filtered(rows: seq<Row>, turnId: string): seq<Row> {
    if rows == [] then []
    else Filtered(rows[..|rows| - 1], turnId) + if Retained(rows[|rows| - 1], turnId) then [rows[|rows| - 1]] else []
  }

  lemma DroppedIsIgnored(p: Progress, row: Row, turnId: string)
    requires !Retained(row, turnId)
    ensures Step(p, row, turnId) == p
  {
  }

  /** Reading only the retained rows gives the same completion as reading all rows. */
  lemma {:induction false} CompletionFromRetained(rows: seq<Row>, turnId: string)
    ensures Progressed(Filtered(rows, turnId), turnId) == Progressed(rows, turnId)
    ensures Completed(Filtered(rows, turnId), turnId) == Completed(rows, turnId)
  {
    if rows != [] {
      var n := |rows| - 1;
      CompletionFromRetained(rows[..n], turnId);
      hide Retained, Step;
      var front := Filtered(rows[..n], turnId);
      if Retained(rows[n], turnId) {
        assert (front + [rows[n]])[..|front|] == front;
      } else {
        DroppedIsIgnored(Progressed(rows[..n], turnId), rows[n], turnId);
        assert front + [] == front;
      }
    }
  }
}
