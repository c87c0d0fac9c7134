/** Validation of a concatenation: with a line break at the seam, ownership is decided part by part. */
module ManagedBlockSeams {
  import opened Wrappers
  import opened MarkerText
  import opened ManagedBlock

  ghost predicate StandaloneKept(a: string, b: string, m: string) {
    && (forall i: nat | OccursAt(a, m, i) :: Standalone(a + b, m, i) == Standalone(a, m, i))
    && (forall i: nat | OccursAt(b, m, i) :: Standalone(a + b, m, |a| + i) == Standalone(b, m, i))
  }

  /** Markers of the whole are the markers of the parts, and stand alone in both or in neither. */
  ghost predicate Joined(a: string, b: string, mk: Markers) {
    && Seam(a, b, mk.begin) && Seam(a, b, mk.end)
    && StandaloneKept(a, b, mk.begin) && StandaloneKept(a, b, mk.end)
  }

  predicate StartsWithBreak(s: string) {
    s == "" || s[0] == '\n' || (|s| > 1 && s[0] == '\r' && s[1] == '\n')
  }

  predicate EndsLine(s: string) { s == "" || s[|s| - 1] == '\n' }

  lemma CharsOfConcat(a: string, b: string)
    ensures forall i :: CharAt(a + b, i) == if i < |a| then CharAt(a, i) else CharAt(b, i - |a|)
  {
  }

  lemma LastChar(s: string, m: string, i: nat)
    requires PlainMarker(m) && OccursAt(s, m, i)
    ensures s[i] != '\n' && s[i] != '\r' && s[i + |m| - 1] != '\n' && s[i + |m| - 1] != '\r'
  {
  }

  lemma KeptAfterLine(a: string, b: string, m: string)
    requires PlainMarker(m) && EndsLine(a)
    ensures StandaloneKept(a, b, m)
  {
    CharsOfConcat(a, b);
    forall i: nat | OccursAt(a, m, i)
      ensures Standalone(a + b, m, i) == Standalone(a, m, i)
    {
      LastChar(a, m, i);
    }
  }

  ghost predicate AllStandalone(s: string, m: string) {
    forall i: nat | OccursAt(s, m, i) :: Standalone(s, m, i)
  }

  lemma KeptBeforeBreakFirst(a: string, b: string, m: string, i: nat)
    requires PlainMarker(m) && StartsWithBreak(b) && OccursAt(a, m, i)
    requires a[|a| - 1] == '\r' ==> Standalone(a, m, i)
    ensures Standalone(a + b, m, i) == Standalone(a, m, i)
  {
  }

  lemma KeptBeforeBreakSecond(a: string, b: string, m: string, i: nat)
    requires PlainMarker(m) && StartsWithBreak(b) && OccursAt(b, m, i)
    ensures Standalone(a + b, m, |a| + i) == Standalone(b, m, i)
  {
  }

  lemma KeptBeforeBreak(a: string, b: string, m: string)
    requires PlainMarker(m) && StartsWithBreak(b)
    requires (a != "" && a[|a| - 1] == '\r') ==> AllStandalone(a, m)
    ensures StandaloneKept(a, b, m)
  {
    forall i: nat | OccursAt(a, m, i)
      ensures Standalone(a + b, m, i) == Standalone(a, m, i)
    {
      KeptBeforeBreakFirst(a, b, m, i);
    }
    forall i: nat | OccursAt(b, m, i)
      ensures Standalone(a + b, m, |a| + i) == Standalone(b, m, i)
    {
      KeptBeforeBreakSecond(a, b, m, i);
    }
  }

  lemma JoinedAfterLine(a: string, b: string, mk: Markers)
    requires Sound(mk) && EndsLine(a)
    ensures Joined(a, b, mk)
  {
    KeptAfterLine(a, b, mk.begin);
    KeptAfterLine(a, b, mk.end);
  }

  lemma JoinedBeforeBreak(a: string, b: string, mk: Markers)
    requires Sound(mk) && StartsWithBreak(b)
    requires (a != "" && a[|a| - 1] == '\r') ==> !Validate(a, mk).Malformed?
    ensures Joined(a, b, mk)
  {
    if a != "" && a[|a| - 1] == '\r' {
      ValidStandalone(a, mk);
    }
    KeptBeforeBreak(a, b, mk.begin);
    KeptBeforeBreak(a, b, mk.end);
  }

  /** In a valid text every marker stands alone. */
  lemma ValidStandalone(s: string, mk: Markers)
    requires Sound(mk) && !Validate(s, mk).Malformed?
    ensures AllStandalone(s, mk.begin) && AllStandalone(s, mk.end)
  {
    var p, q := Positions(s, mk.begin), Positions(s, mk.end);
    PositionsFromExact(s, mk.begin, 0);
    PositionsFromExact(s, mk.end, 0);
    ScannedPairsAreGood(s, mk, p, q, 0);
    forall i: nat | OccursAt(s, mk.begin, i)
      ensures Standalone(s, mk.begin, i)
    {
      var k :| 0 <= k < |p| && p[k] == i;
      assert !PairOwnership(s, mk, p, q, k).Malformed?;
    }
    forall i: nat | OccursAt(s, mk.end, i)
      ensures Standalone(s, mk.end, i)
    {
      var k :| 0 <= k < |q| && q[k] == i;
      assert !PairOwnership(s, mk, p, q, k).Malformed?;
    }
  }

  lemma {:induction false} ScannedPairsAreGood(s: string, mk: Markers, p: seq<nat>, q: seq<nat>, k: nat)
    requires k <= |p| == |q| && !ScanPairs(s, mk, p, q, k).Malformed?
    ensures forall j | k <= j < |p| :: !PairOwnership(s, mk, p, q, j).Malformed?
    decreases |p| - k
  {
    hide PairOwnership;
    if k < |p| {
      ScannedPairsAreGood(s, mk, p, q, k + 1);
    }
  }

  // Pairs of a concatenation.

  function ShiftOwnership(o: Ownership, n: nat): Ownership {
    if o.Owner? && o.region.Some? then Owner(Some(Region(o.region.value.start + n, o.region.value.end + n))) else o
  }

  lemma BetweenInConcat(a: string, b: string, i: nat, j: nat)
    ensures j <= |a| ==> Between(a + b, i, j) == Between(a, i, j)
    ensures Between(a + b, |a| + i, |a| + j) == Between(b, i, j)
  {
  }

  lemma OccurrencesAreInside(s: string, m: string, p: seq<nat>, k: nat)
    requires m != "" && p == Positions(s, m) && k < |p|
    ensures OccursAt(s, m, p[k]) && p[k] + |m| <= |s|
  {
    PositionsFromExact(s, m, 0);
    assert p[k] in p;
  }

  lemma KindInConcat(a: string, b: string, mk: Markers, start: nat, end: nat)
    ensures end <= |a| ==> KindAt(a + b, mk, start, end) == KindAt(a, mk, start, end)
    ensures KindAt(a + b, mk, |a| + start, |a| + end) == KindAt(b, mk, start, end)
  {
    hide KindOf, Collapse, Between;
    BetweenInConcat(a, b, start + |mk.begin|, end);
    assert |a| + start + |mk.begin| == |a| + (start + |mk.begin|);
  }

  lemma StandaloneInConcat(a: string, b: string, mk: Markers, i: nat, j: nat)
    requires Joined(a, b, mk)
    ensures OccursAt(a, mk.begin, i) ==> Standalone(a + b, mk.begin, i) == Standalone(a, mk.begin, i)
    ensures OccursAt(a, mk.end, j) ==> Standalone(a + b, mk.end, j) == Standalone(a, mk.end, j)
    ensures OccursAt(b, mk.begin, i) ==> Standalone(a + b, mk.begin, i + |a|) == Standalone(b, mk.begin, i)
    ensures OccursAt(b, mk.end, j) ==> Standalone(a + b, mk.end, j + |a|) == Standalone(b, mk.end, j)
  {
  }

  lemma VerdictInFirst(a: string, b: string, mk: Markers, i: nat, j: nat)
    requires Joined(a, b, mk) && OccursAt(a, mk.begin, i) && OccursAt(a, mk.end, j) && j <= |a|
    ensures Verdict(a + b, mk, i, j) == Verdict(a, mk, i, j)
  {
    hide Standalone, KindAt, Joined, OccursAt;
    KindInConcat(a, b, mk, i, j);
    StandaloneInConcat(a, b, mk, i, j);
  }

  lemma VerdictInSecond(a: string, b: string, mk: Markers, i: nat, j: nat)
    requires Joined(a, b, mk) && OccursAt(b, mk.begin, i) && OccursAt(b, mk.end, j)
    ensures Verdict(a + b, mk, i + |a|, j + |a|) == ShiftOwnership(Verdict(b, mk, i, j), |a|)
  {
    hide Standalone, KindAt, Joined, OccursAt;
    KindInConcat(a, b, mk, i, j);
    assert |a| + i == i + |a| && |a| + j == j + |a|;
    StandaloneInConcat(a, b, mk, i, j);
  }

  lemma PairInFirst(a: string, b: string, mk: Markers, pa: seq<nat>, qa: seq<nat>, p: seq<nat>, q: seq<nat>, k: nat)
    requires Sound(mk) && Joined(a, b, mk)
    requires pa == Positions(a, mk.begin) && qa == Positions(a, mk.end) && |pa| == |qa| && k < |pa|
    requires pa <= p && qa <= q && |p| == |q|
    ensures PairOwnership(a + b, mk, p, q, k) == PairOwnership(a, mk, pa, qa, k)
  {
    hide Verdict, Positions, Joined, OccursAt;
    OccurrencesAreInside(a, mk.begin, pa, k);
    OccurrencesAreInside(a, mk.end, qa, k);
    VerdictInFirst(a, b, mk, pa[k], qa[k]);
  }

  /** The pairs of the second part follow n pairs that lie before it. */
  ghost predicate Follows(p: seq<nat>, q: seq<nat>, pb: seq<nat>, qb: seq<nat>, n: nat, offset: nat) {
    && |pb| == |qb| && |p| == |q| == n + |pb|
    && (forall j | 0 <= j < |pb| :: p[n + j] == pb[j] + offset && q[n + j] == qb[j] + offset)
    && (n > 0 ==> q[n - 1] <= offset)
  }

  lemma PairInSecond(a: string, b: string, mk: Markers, pb: seq<nat>, qb: seq<nat>, p: seq<nat>, q: seq<nat>, n: nat, k: nat)
    requires Sound(mk) && Joined(a, b, mk)
    requires pb == Positions(b, mk.begin) && qb == Positions(b, mk.end) && Follows(p, q, pb, qb, n, |a|) && k < |pb|
    ensures PairOwnership(a + b, mk, p, q, n + k) == ShiftOwnership(PairOwnership(b, mk, pb, qb, k), |a|)
  {
    hide Verdict, Positions, Joined, OccursAt;
    OccurrencesAreInside(b, mk.begin, pb, k);
    OccurrencesAreInside(b, mk.end, qb, k);
    if k > 0 {
      var j := k - 1;
      assert q[n + j] == qb[j] + |a|;
    }
    VerdictInSecond(a, b, mk, pb[k], qb[k]);
  }

  lemma {:induction false} ScanSecond(a: string, b: string, mk: Markers, pb: seq<nat>, qb: seq<nat>, p: seq<nat>, q: seq<nat>,
                                      n: nat, k: nat)
    requires Sound(mk) && Joined(a, b, mk)
    requires pb == Positions(b, mk.begin) && qb == Positions(b, mk.end) && |pb| == |qb| && k <= |pb|
    requires Follows(p, q, pb, qb, n, |a|)
    ensures ScanPairs(a + b, mk, p, q, n + k) == ShiftOwnership(ScanPairs(b, mk, pb, qb, k), |a|)
    decreases |pb| - k
  {
    hide PairOwnership, Joined, Positions, Sound;
    if k < |pb| {
      PairInSecond(a, b, mk, pb, qb, p, q, n, k);
      ScanSecond(a, b, mk, pb, qb, p, q, n, k + 1);
    }
  }

  lemma {:induction false} ScanFirst(a: string, b: string, mk: Markers, pa: seq<nat>, qa: seq<nat>, p: seq<nat>, q: seq<nat>, k: nat)
    requires Sound(mk) && Joined(a, b, mk)
    requires pa == Positions(a, mk.begin) && qa == Positions(a, mk.end) && |pa| == |qa| && k <= |pa|
    requires pa <= p && qa <= q && |p| == |q|
    ensures ScanPairs(a + b, mk, p, q, k) == Combine(ScanPairs(a, mk, pa, qa, k), ScanPairs(a + b, mk, p, q, |pa|))
    decreases |pa| - k
  {
    hide PairOwnership, Joined, Positions, Sound;
    if k < |pa| {
      PairInFirst(a, b, mk, pa, qa, p, q, k);
      ScanFirst(a, b, mk, pa, qa, p, q, k + 1);
      CombineAssociates(PairOwnership(a, mk, pa, qa, k), ScanPairs(a, mk, pa, qa, k + 1), ScanPairs(a + b, mk, p, q, |pa|));
    } else {
      CombineAssociates(ScanPairs(a + b, mk, p, q, |pa|), Owner(None), Owner(None));
    }
  }

  predicate Balanced(s: string, mk: Markers) {
    |Positions(s, mk.begin)| == |Positions(s, mk.end)|
  }

  lemma PairsFollow(a: string, b: string, mk: Markers)
    requires Sound(mk) && Joined(a, b, mk) && Balanced(a, mk) && Balanced(b, mk)
    ensures Follows(Positions(a + b, mk.begin), Positions(a + b, mk.end), Positions(b, mk.begin), Positions(b, mk.end),
                    |Positions(a, mk.begin)|, |a|)
  {
    hide StandaloneKept, Positions, Unbordered;
    PositionsConcat(a, b, mk.begin);
    PositionsConcat(a, b, mk.end);
    var qa := Positions(a, mk.end);
    if |qa| > 0 {
      OccurrencesAreInside(a, mk.end, qa, |qa| - 1);
    }
  }

  /** Ownership of a concatenation, when the seam is at a line break and the first part is balanced. */
  lemma ValidateConcat(a: string, b: string, mk: Markers)
    requires Sound(mk) && Joined(a, b, mk) && Balanced(a, mk)
    ensures Validate(a + b, mk) == Combine(Validate(a, mk), ShiftOwnership(Validate(b, mk), |a|))
  {
    var pa, qa := Positions(a, mk.begin), Positions(a, mk.end);
    var pb, qb := Positions(b, mk.begin), Positions(b, mk.end);
    var p, q := Positions(a + b, mk.begin), Positions(a + b, mk.end);
    PositionsConcat(a, b, mk.begin);
    PositionsConcat(a, b, mk.end);
    hide Joined, Positions, Sound, ScanPairs;
    if |pb| == |qb| {
      var n := |pa|;
      PairsFollow(a, b, mk);
      ScanFirst(a, b, mk, pa, qa, p, q, 0);
      ScanSecond(a, b, mk, pb, qb, p, q, n, 0);
    }
  }
}
