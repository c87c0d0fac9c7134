/** The checks that the client runs on an acknowledgement, proved to decide the existence of a matching. */
module AcknowledgementCheck {
  import opened Wrappers
  import opened Acknowledgements
  import opened FiniteSets
  import opened Sorting

  // Ordering sources: absent ones first, then ascending.

  predicate AtMost(x: Option<nat>, y: Option<nat>) {
    x.None? || (y.Some? && x.value <= y.value)
  }

  function Ordering(s: seq<Option<nat>>): seq<Option<nat>> { Sort(s, AtMost) }

  // Explicit identifiers.

  function Explicit(ids: seq<Option<string>>): seq<string> {
    if ids == [] then []
    else
      var n := |ids| - 1;
      Explicit(ids[..n]) + if ids[n].Some? then [ids[n].value] else []
  }

  lemma {:induction false} ExplicitMembers(ids: seq<Option<string>>)
    ensures forall x :: x in Explicit(ids) <==> Some(x) in ids
  {
    if ids != [] {
      var n := |ids| - 1;
      ExplicitMembers(ids[..n]);
      assert ids == ids[..n] + [ids[n]];
    }
  }

  function Members<T(==)>(s: seq<T>): set<T> {
    set x | x in s
  }

  lemma {:induction false} SizeSaysDistinct<T>(s: seq<T>)
    ensures |Members(s)| <= |s|
    ensures |Members(s)| == |s| <==> Distinct(s)
  {
    if s == [] {
      assert Members(s) == {};
    } else {
      var n := |s| - 1;
      SizeSaysDistinct(s[..n]);
      assert s == s[..n] + [s[n]];
      assert Members(s) == Members(s[..n]) + {s[n]};
      assert Distinct(s) <==> Distinct(s[..n]) && s[n] !in s[..n];
    }
  }

  lemma {:induction false} ExplicitDistinct(ids: seq<Option<string>>)
    ensures Distinct(Explicit(ids)) <==> PinsDistinct(ids)
  {
    if ids != [] {
      var n := |ids| - 1;
      var front, x := Explicit(ids[..n]), ids[n];
      ExplicitDistinct(ids[..n]);
      ExplicitMembers(ids[..n]);
      assert ids == ids[..n] + [x];
      assert forall i | 0 <= i < n :: ids[..n][i] == ids[i];
      assert PinsDistinct(ids) <==> PinsDistinct(ids[..n]) && (x.Some? ==> x !in ids[..n]);
      if x.Some? {
        AppendedDistinct(front, x.value);
      } else {
        assert front + [] == front;
      }
    }
  }

  lemma AppendedDistinct(s: seq<string>, x: string)
    ensures Distinct(s + [x]) <==> Distinct(s) && x !in s
  {
    var t := s + [x];
    assert forall i | 0 <= i < |s| :: t[i] == s[i];
    assert t[|s|] == x;
  }

  // The checks.

  method IndexOf(s: seq<Option<nat>>, x: Option<nat>) returns (index: int)
    ensures index < 0 ==> x !in s
    ensures index >= 0 ==> index < |s| && s[index] == x
  {
    for i := 0 to |s|
      invariant x !in s[..i]
    {
      if s[i] == x {
        return i;
      }
    }
    return -1;
  }

  /** Take each expected source out of a working copy: it succeeds exactly when there are enough. */
  method RemoveEach(offered: seq<Option<nat>>, wanted: seq<Option<nat>>) returns (ok: bool)
    ensures ok <==> multiset(wanted) <= multiset(offered)
  {
    var remaining := offered;
    for i := 0 to |wanted|
      invariant multiset(wanted[..i]) + multiset(remaining) == multiset(offered)
    {
      var index := IndexOf(remaining, wanted[i]);
      assert wanted[..i + 1] == wanted[..i] + [wanted[i]];
      assert wanted == wanted[..i + 1] + wanted[i + 1..];
      if index < 0 {
        assert multiset(remaining)[wanted[i]] == 0;
        assert multiset(wanted)[wanted[i]] > multiset(offered)[wanted[i]];
        return false;
      }
      assert remaining == remaining[..index] + [remaining[index]] + remaining[index + 1..];
      remaining := remaining[..index] + remaining[index + 1..];
    }
    assert wanted[..|wanted|] == wanted;
    return true;
  }

  /** Every pinned identifier is acknowledged once, under the source it was sent with. */
  method PinsAreAcknowledged(a: Ack, e: Expected) returns (ok: bool)
    requires Parallel(e) && |a.sources| == |a.ids| && Distinct(a.ids)
    ensures ok <==> PinsHold(a, e)
  {
    for i := 0 to |e.ids|
      invariant forall k | 0 <= k < i && e.ids[k].Some? :: exists j :: 0 <= j < |a.ids| && Fits(a, e, k, j)
    {
      if e.ids[i].Some? {
        var actual := -1;
        for j := 0 to |a.ids|
          invariant actual == -1 && e.ids[i].value !in a.ids[..j]
        {
          if a.ids[j] == e.ids[i].value {
            actual := j;
            break;
          }
        }
        if actual < 0 || a.sources[actual] != e.sources[i] {
          assert forall j | 0 <= j < |a.ids| :: !Fits(a, e, i, j);
          return false;
        }
        assert Fits(a, e, i, actual);
      }
    }
    return true;
  }

  /** Acceptance is the existence of a matching, onto all acknowledged entries when the counts must agree. */
  method ValidateExpectedAck(a: Ack, e: Expected, exactCardinality: bool) returns (ok: bool)
    requires WellFormed(a) && Parallel(e)
    ensures ok <==> Matchable(a, e) && (exactCardinality ==> |e.ids| == |a.ids|)
  {
    hide Matchable, WellFormed, PinsHold, PinsDistinct;
    CardinalityBound(a, e);
    DecidedBy(a, e);
    var explicit := Explicit(e.ids);
    SizeSaysDistinct(explicit);
    ExplicitDistinct(e.ids);
    if |Members(explicit)| != |explicit|
      || (exactCardinality && |a.sources| != |e.sources|)
      || (!exactCardinality && |a.sources| < |e.sources|) {
      return false;
    }
    if exactCardinality {
      SameSourcesIffOrderedSame(a, e);
      if Ordering(a.sources) != Ordering(e.sources) {
        return false;
      }
    } else {
      var enough := RemoveEach(a.sources, e.sources);
      if !enough {
        return false;
      }
    }
    ok := PinsAreAcknowledged(a, e);
  }

  lemma DecidedBy(a: Ack, e: Expected)
    requires WellFormed(a) && Parallel(e)
    ensures Matchable(a, e) <==> SourcesSuffice(a, e) && PinsHold(a, e) && PinsDistinct(e.ids)
    ensures |a.sources| == |a.ids| && Distinct(a.ids)
  {
    if Matchable(a, e) {
      Necessary(a, e);
    }
    if SourcesSuffice(a, e) && PinsHold(a, e) && PinsDistinct(e.ids) {
      Sufficient(a, e);
    }
  }

  lemma CardinalityBound(a: Ack, e: Expected)
    requires WellFormed(a) && Parallel(e)
    ensures SourcesSuffice(a, e) ==> |e.sources| <= |a.sources|
  {
    if SourcesSuffice(a, e) {
      assert multiset(a.sources) == multiset(e.sources) + (multiset(a.sources) - multiset(e.sources));
      assert |multiset(a.sources)| == |a.sources| && |multiset(e.sources)| == |e.sources|;
    }
  }

  lemma SourcesAreSeparated(s: seq<Option<nat>>)
    ensures TotalPreorder(AtMost) && Separates(AtMost, s)
  {
  }

  lemma EqualSizes(a: multiset<Option<nat>>, b: multiset<Option<nat>>)
    requires a <= b && |a| == |b|
    ensures a == b
  {
    var rest := b - a;
    assert b == a + rest;
    assert |rest| == 0;
  }

  lemma SameSourcesIffOrderedSame(a: Ack, e: Expected)
    requires |a.sources| == |e.sources|
    ensures Ordering(a.sources) == Ordering(e.sources) <==> SourcesSuffice(a, e)
  {
    var x, y := multiset(a.sources), multiset(e.sources);
    assert |x| == |a.sources| && |y| == |e.sources|;
    SourcesAreSeparated(a.sources);
    SortMembers(a.sources, AtMost);
    SortMembers(e.sources, AtMost);
    hide TotalPreorder, Separates, AtMost, Sort;
    if y <= x {
      EqualSizes(y, x);
      SortOfPermutation(a.sources, e.sources, AtMost);
    }
  }

  /** With equal counts the matching uses every acknowledged entry. */
  lemma MatchingIsOnto(m: seq<nat>, a: Ack, e: Expected, j: nat)
    requires |a.sources| == |a.ids| == |e.ids| && Matching(m, a, e) && j < |a.ids|
    ensures j in m
  {
    assert forall i | 0 <= i < |m| :: Fits(a, e, i, m[i]);
    InjectiveIsOnto(m, j);
  }

  lemma InjectiveIsOnto(m: seq<nat>, j: nat)
    requires forall i | 0 <= i < |m| :: m[i] < |m|
    requires forall i, k | 0 <= i < k < |m| :: m[i] != m[k]
    requires j < |m|
    ensures j in m
  {
    SizeSaysDistinct(m);
    SubsetSize(Members(m), Below(|m|));
    assert j in Members(m);
  }

  function Below(n: nat): (r: set<nat>)
    ensures |r| == n && forall i: nat :: i in r <==> i < n
  {
    if n == 0 then {} else Below(n - 1) + {n - 1}
  }

  // Responses.

  /** An append response acknowledges exactly the events sent. */
  method ValidateAppendAck(a: Ack, e: Expected) returns (ok: bool)
    requires Parallel(e)
    ensures ok <==> WellFormed(a) && Matchable(a, e) && |e.ids| == |a.ids|
  {
    if WellFormed(a) {
      ok := ValidateExpectedAck(a, e, true);
    } else {
      ok := false;
    }
  }

  /** A close response acknowledges the events sent and one more, the closing event itself. */
  method ValidateCloseAck(a: Ack, e: Option<Expected>) returns (ok: bool)
    requires e.Some? ==> Parallel(e.value)
    ensures ok <==> WellFormed(a) && if e.Some? then |a.ids| == |e.value.ids| + 1 && Matchable(a, e.value) else |a.ids| == 1
  {
    if !WellFormed(a) {
      return false;
    }
    if e.Some? {
      if |a.ids| != |e.value.ids| + 1 {
        return false;
      }
      ok := ValidateExpectedAck(a, e.value, false);
    } else {
      ok := |a.ids| == 1;
    }
  }
}
