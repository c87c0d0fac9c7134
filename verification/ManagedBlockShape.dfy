/** The shape of owned regions and of well-formed blocks. */
module ManagedBlockShape {
  import opened Wrappers
  import opened MarkerText
  import opened ManagedBlock
  import opened ManagedBlockSeams

  // Regions.

  /** The pair that makes a text owned. */
  lemma {:induction false} OwnedPair(s: string, mk: Markers, p: seq<nat>, q: seq<nat>, k: nat) returns (i: nat)
    requires k <= |p| == |q| && ScanPairs(s, mk, p, q, k).Owner? && ScanPairs(s, mk, p, q, k).region.Some?
    ensures k <= i < |p| && PairOwnership(s, mk, p, q, i) == ScanPairs(s, mk, p, q, k)
    decreases |p| - k
  {
    hide PairOwnership;
    if PairOwnership(s, mk, p, q, k) == ScanPairs(s, mk, p, q, k) {
      i := k;
    } else {
      i := OwnedPair(s, mk, p, q, k + 1);
    }
  }

  lemma StandaloneEdges(s: string, m: string, i: nat)
    requires i + |m| <= |s| && Standalone(s, m, i)
    ensures EndsLine(s[..i]) && StartsWithBreak(s[i + |m|..])
  {
  }

  lemma VerdictFacts(s: string, mk: Markers, start: nat, end: nat, r: Region)
    requires Verdict(s, mk, start, end) == Owner(Some(r))
    ensures start < end && r == Region(start, end + |mk.end|)
    ensures Standalone(s, mk.begin, start) && Standalone(s, mk.end, end) && KindAt(s, mk, start, end).Own?
  {
  }

  /** The marker pair with index i delimits region r. */
  ghost predicate Delimits(s: string, mk: Markers, r: Region, i: nat) {
    var p, q := Positions(s, mk.begin), Positions(s, mk.end);
    && i < |p| == |q| && r.start == p[i] && r.end == q[i] + |mk.end| && p[i] < q[i]
    && (i > 0 ==> q[i - 1] <= p[i])
  }

  lemma DelimitingPair(s: string, mk: Markers, r: Region) returns (i: nat)
    requires Validate(s, mk) == Owner(Some(r))
    ensures Delimits(s, mk, r, i)
    ensures r.end >= |mk.end| && Verdict(s, mk, r.start, r.end - |mk.end|) == Owner(Some(r))
  {
    hide Verdict, Positions, ScanPairs, Standalone, KindAt;
    var p, q := Positions(s, mk.begin), Positions(s, mk.end);
    i := OwnedPair(s, mk, p, q, 0);
    VerdictFacts(s, mk, p[i], q[i], r);
  }

  /** The owned region runs from a begin marker at a line start to an end marker at a line end. */
  lemma RegionFacts(s: string, mk: Markers, r: Region) returns (i: nat)
    requires Sound(mk) && Validate(s, mk) == Owner(Some(r))
    ensures Delimits(s, mk, r, i) && r.start < r.end - |mk.end| < r.end <= |s|
    ensures OccursAt(s, mk.begin, r.start) && OccursAt(s, mk.end, r.end - |mk.end|)
    ensures EndsLine(s[..r.start]) && StartsWithBreak(s[r.end..])
    ensures Standalone(s, mk.begin, r.start) && Standalone(s, mk.end, r.end - |mk.end|)
    ensures KindAt(s, mk, r.start, r.end - |mk.end|).Own?
  {
    hide Positions, KindAt, ScanPairs, Validate, Standalone, Verdict, EndsLine, StartsWithBreak;
    i := DelimitingPair(s, mk, r);
    OccurrencesAreInside(s, mk.begin, Positions(s, mk.begin), i);
    OccurrencesAreInside(s, mk.end, Positions(s, mk.end), i);
    VerdictFacts(s, mk, r.start, r.end - |mk.end|, r);
    StandaloneEdges(s, mk.begin, r.start);
    StandaloneEdges(s, mk.end, r.end - |mk.end|);
  }

  lemma Ordered(p: seq<nat>, i: nat, j: nat)
    requires Increasing(p)
    ensures i < j < |p| ==> p[i] < p[j]
  {
  }

  lemma JoinedAt(x: seq<nat>, y: seq<nat>, n: nat, k: nat)
    ensures var p := x + Shift(y, n); k < |x| ==> p[k] == x[k]
    ensures var p := x + Shift(y, n); |x| <= k < |p| ==> p[k] >= n
  {
  }

  /** In an increasing sequence x + y', where y' starts at n, the number n has index |x|. */
  lemma CountBefore(x: seq<nat>, y: seq<nat>, n: nat, k: nat)
    requires Increasing(x + Shift(y, n)) && k < |x| + |y| && (x + Shift(y, n))[k] == n
    requires forall j | 0 <= j < |x| :: x[j] < n
    ensures |x| == k
  {
    hide Increasing;
    Ordered(x + Shift(y, n), |x|, k);
    JoinedAt(x, y, n, |x|);
    JoinedAt(x, y, n, k);
  }

  /** If the sequence x + y' jumps over n between k - 1 and k, then x has k members. */
  lemma CountAround(x: seq<nat>, y: seq<nat>, n: nat, k: nat)
    requires k < |x| + |y| && (x + Shift(y, n))[k] > n && (k > 0 ==> (x + Shift(y, n))[k - 1] < n)
    requires forall j | 0 <= j < |x| :: x[j] < n
    ensures |x| == k
  {
  }

  lemma RegionBounds(s: string, mk: Markers, r: Region)
    requires Sound(mk) && Validate(s, mk) == Owner(Some(r))
    ensures r.start < r.end <= |s|
  {
    var _ := RegionFacts(s, mk, r);
  }

  /** An owned region ends within the text. */
  lemma RegionInside(s: string, mk: Markers)
    requires Sound(mk)
    ensures Validate(s, mk).Owner? && Validate(s, mk).region.Some? ==>
              Validate(s, mk).region.value.start < Validate(s, mk).region.value.end <= |s|
  {
    if Validate(s, mk).Owner? && Validate(s, mk).region.Some? {
      RegionBounds(s, mk, Validate(s, mk).region.value);
    }
  }

  /** A text splits at its owned region: what precedes it is balanced and owns nothing. */
  lemma SplitRegion(s: string, mk: Markers, r: Region)
    requires Sound(mk) && Validate(s, mk) == Owner(Some(r))
    ensures r.start < r.end <= |s| && EndsLine(s[..r.start])
    ensures Balanced(s[..r.start], mk) && Validate(s[..r.start], mk) == Owner(None)
    ensures Validate(s[r.start..], mk) == Owner(Some(Region(0, r.end - r.start)))
  {
    hide Validate, Sound, Joined, Balanced, EndsLine;
    hide OccursAt, Standalone, KindAt, StartsWithBreak;
    var i := RegionFacts(s, mk, r);
    var a, rest := s[..r.start], s[r.start..];
    assert s == a + rest;
    JoinedAfterLine(a, rest, mk);
    HeadIsBalanced(s, mk, r, i);
    ValidateConcat(a, rest, mk);
    RegionInside(a, mk);
  }

  lemma BeginsBefore(a: string, rest: string, m: string, i: nat)
    requires m != "" && Seam(a, rest, m)
    requires i < |Positions(a + rest, m)| && Positions(a + rest, m)[i] == |a|
    ensures |Positions(a, m)| == i
  {
    PositionsConcat(a, rest, m);
    PositionsFromExact(a + rest, m, 0);
    PositionsAreInside(a, m);
    hide Positions, OccursAt;
    CountBefore(Positions(a, m), Positions(rest, m), |a|, i);
  }

  lemma EndsBefore(a: string, rest: string, m: string, i: nat)
    requires m != "" && Seam(a, rest, m) && !OccursAt(a + rest, m, |a|)
    requires var q := Positions(a + rest, m); i < |q| && q[i] > |a| && (i > 0 ==> q[i - 1] <= |a|)
    ensures |Positions(a, m)| == i
  {
    var q := Positions(a + rest, m);
    hide Positions, OccursAt;
    PositionsConcat(a, rest, m);
    PositionsAreInside(a, m);
    if i > 0 {
      OccurrencesAreInside(a + rest, m, q, i - 1);
    }
    CountAround(Positions(a, m), Positions(rest, m), |a|, i);
  }

  lemma HeadIsBalanced(s: string, mk: Markers, r: Region, i: nat)
    requires Sound(mk) && r.start <= |s| && EndsLine(s[..r.start]) && Delimits(s, mk, r, i)
    ensures Balanced(s[..r.start], mk)
  {
    hide Positions, Unbordered, OccursAt, StandaloneKept;
    var a, rest := s[..r.start], s[r.start..];
    assert s == a + rest;
    JoinedAfterLine(a, rest, mk);
    OccurrencesAreInside(s, mk.begin, Positions(s, mk.begin), i);
    NotAtOnce(s, mk, |a|);
    BeginsBefore(a, rest, mk.begin, i);
    EndsBefore(a, rest, mk.end, i);
  }

  lemma PositionsAreInside(s: string, m: string)
    requires m != ""
    ensures forall j | 0 <= j < |Positions(s, m)| :: Positions(s, m)[j] + |m| <= |s|
  {
    forall j | 0 <= j < |Positions(s, m)|
      ensures Positions(s, m)[j] + |m| <= |s|
    {
      OccurrencesAreInside(s, m, Positions(s, m), j);
    }
  }

  /** The markers never begin at the same place. */
  lemma NotAtOnce(s: string, mk: Markers, i: nat)
    requires Sound(mk) && OccursAt(s, mk.begin, i)
    ensures !OccursAt(s, mk.end, i)
  {
  }

  /** A text that is owned from its first letter splits after its region. */
  lemma HeadRegion(s: string, mk: Markers, n: nat)
    requires Sound(mk) && Validate(s, mk) == Owner(Some(Region(0, n)))
    ensures 0 < n <= |s| && StartsWithBreak(s[n..])
    ensures s[n - 1] != '\n' && s[n - 1] != '\r' && s[0] != '\n' && s[0] != '\r'
    ensures Balanced(s[..n], mk)
    ensures Validate(s[..n], mk) == Owner(Some(Region(0, n))) && Validate(s[n..], mk) == Owner(None)
  {
    hide Validate, Joined, OccursAt, Standalone, KindAt, StartsWithBreak, EndsLine, Unbordered, Positions;
    var i := RegionFacts(s, mk, Region(0, n));
    var r, b := s[..n], s[n..];
    assert s == r + b;
    LastChar(s, mk.end, n - |mk.end|);
    LastChar(s, mk.begin, 0);
    JoinedBeforeBreak(r, b, mk);
    OnePair(s, mk, n, i);
    ValidateConcat(r, b, mk);
    RegionInside(b, mk);
  }

  lemma OnePair(s: string, mk: Markers, n: nat, i: nat)
    requires Sound(mk) && |mk.end| < n <= |s| && Joined(s[..n], s[n..], mk)
    requires Delimits(s, mk, Region(0, n), i) && Validate(s, mk).Owner?
    ensures |Positions(s[..n], mk.begin)| == 1 && |Positions(s[..n], mk.end)| == 1
  {
    hide Verdict, Unbordered, Standalone, KindAt, StandaloneKept;
    var r, b := s[..n], s[n..];
    assert s == r + b;
    var p, q := Positions(s, mk.begin), Positions(s, mk.end);
    PositionsFromExact(s, mk.begin, 0);
    PositionsFromExact(s, mk.end, 0);
    ScannedPairsAreGood(s, mk, p, q, 0);
    PositionsConcat(r, b, mk.begin);
    PositionsConcat(r, b, mk.end);
    PositionsAreInside(r, mk.begin);
    PositionsAreInside(r, mk.end);
    hide Positions, Validate, ScanPairs;
    Ordered(p, 0, i);
    assert |p| > 1 ==> !PairOwnership(s, mk, p, q, 1).Malformed? && q[0] < q[1];
    FirstOnly(Positions(r, mk.begin), Positions(b, mk.begin), n, n - |mk.end|);
    FirstOnly(Positions(r, mk.end), Positions(b, mk.end), n, n - |mk.end| + 1);
  }

  /** If x + y', where y' starts at n, begins below n and goes on at limit or later, and x stays below limit, x has one member. */
  lemma FirstOnly(x: seq<nat>, y: seq<nat>, n: nat, limit: nat)
    requires var p := x + Shift(y, n); p != [] && p[0] < n && (|p| > 1 ==> p[1] >= limit)
    requires forall j | 0 <= j < |x| :: x[j] < limit
    ensures |x| == 1
  {
  }
}
