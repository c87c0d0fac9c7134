/** Deciding whether acknowledged events can be the events that were sent. */
module Acknowledgements {
  import opened FiniteSets
  import opened Wrappers

  /** Parallel lists of a response; identifiers and sources have been decoded. */
  datatype Ack = Ack(acceptedThrough: nat, localSequences: seq<nat>, sources: seq<Option<nat>>, ids: seq<string>)

  /** Parallel lists of a request; an identifier that may be rewritten on the way is absent. */
  datatype Expected = Expected(sources: seq<Option<nat>>, ids: seq<Option<string>>)

  predicate Parallel(e: Expected) {
    |e.sources| == |e.ids| && e.ids != []
  }

  predicate Distinct<T(==)>(s: seq<T>) {
    forall i, j | 0 <= i < j < |s| :: s[i] != s[j]
  }

  /** What the field validator establishes. */
  predicate WellFormed(a: Ack) {
    && Distinct(a.ids)
    && |a.localSequences| == |a.sources| == |a.ids| && a.ids != []
    && (forall i | 0 < i < |a.localSequences| :: a.localSequences[i - 1] < a.localSequences[i])
    && a.localSequences[|a.localSequences| - 1] == a.acceptedThrough
  }

  // The meaning.

  /** Expected event i can be acknowledged entry j: same source, and the same identifier if there is one. */
  predicate Fits(a: Ack, e: Expected, i: nat, j: nat) {
    && i < |e.sources| == |e.ids| && j < |a.sources| == |a.ids|
    && e.sources[i] == a.sources[j]
    && (e.ids[i].Some? ==> e.ids[i].value == a.ids[j])
  }

  /** An injection of the expected events into the acknowledged entries. */
  ghost predicate Matching(m: seq<nat>, a: Ack, e: Expected) {
    && |m| == |e.ids|
    && (forall i | 0 <= i < |m| :: Fits(a, e, i, m[i]))
    && (forall i, j | 0 <= i < j < |m| :: m[i] != m[j])
  }

  ghost predicate Matchable(a: Ack, e: Expected) {
    exists m :: Matching(m, a, e)
  }

  // Multisets and index sets.

  function Indices<T(==)>(s: seq<T>, x: T): set<nat> {
    set i: nat | i < |s| && s[i] == x
  }

  lemma {:induction false} IndicesCount<T>(s: seq<T>, x: T)
    ensures |Indices(s, x)| == multiset(s)[x]
  {
    if s == [] {
      assert Indices(s, x) == {};
    } else {
      var n := |s| - 1;
      IndicesCount(s[..n], x);
      assert s == s[..n] + [s[n]];
      assert Indices(s, x) == Indices(s[..n], x) + if s[n] == x then {n} else {};
    }
  }

  ghost predicate Injective(m: map<nat, nat>) {
    forall i, j | i in m && j in m && i != j :: m[i] != m[j]
  }

  function Image(m: map<nat, nat>, d: set<nat>): set<nat>
    requires d <= m.Keys
  {
    set i | i in d :: m[i]
  }

  lemma {:induction false} ImageSize(m: map<nat, nat>, d: set<nat>)
    requires Injective(m) && d <= m.Keys
    ensures |Image(m, d)| == |d|
  {
    if d == {} {
      assert Image(m, d) == {};
    } else {
      var i :| i in d;
      ImageSize(m, d - {i});
      assert Image(m, d) == Image(m, d - {i}) + {m[i]};
      assert m[i] !in Image(m, d - {i});
    }
  }

  // A matching exists when sources suffice and every pin holds.

  ghost predicate SourcesSuffice(a: Ack, e: Expected) {
    multiset(e.sources) <= multiset(a.sources)
  }

  ghost predicate PinsHold(a: Ack, e: Expected) {
    forall i | 0 <= i < |e.ids| && e.ids[i].Some? :: exists j :: 0 <= j < |a.ids| && Fits(a, e, i, j)
  }

  ghost predicate PinsDistinct(ids: seq<Option<string>>) {
    forall i, j | 0 <= i < j < |ids| && ids[i].Some? && ids[j].Some? :: ids[i] != ids[j]
  }

  /** A partial injection that already covers every pinned event. */
  ghost predicate Partial(m: map<nat, nat>, a: Ack, e: Expected) {
    && Injective(m)
    && (forall i | i in m :: Fits(a, e, i, m[i]))
    && (forall i | 0 <= i < |e.ids| && e.ids[i].Some? :: i in m)
  }

  /** While an event is unmatched, an acknowledged entry of its source is unused. */
  lemma FreeEntry(m: map<nat, nat>, a: Ack, e: Expected, i: nat) returns (j: nat)
    requires Parallel(e) && |a.sources| == |a.ids| && SourcesSuffice(a, e) && Partial(m, a, e)
    requires i < |e.ids| && i !in m
    ensures j < |a.ids| && a.sources[j] == e.sources[i] && j !in m.Values
  {
    var x := e.sources[i];
    var wanted, offered := Indices(e.sources, x), Indices(a.sources, x);
    IndicesCount(e.sources, x);
    IndicesCount(a.sources, x);
    var done := wanted * m.Keys;
    SubsetSize(done, wanted - {i});
    ImageSize(m, done);
    var used := Image(m, done);
    assert used <= offered;
    j := NotCovered(used, offered);
    assert forall k | k in m && m[k] in offered :: Fits(a, e, k, m[k]) && k in done;
    assert forall k | k in done :: m[k] in used;
  }

  lemma NotCovered(used: set<nat>, offered: set<nat>) returns (j: nat)
    requires |used| < |offered|
    ensures j in offered && j !in used
  {
    if offered <= used {
      SubsetSize(offered, used);
    }
    j :| j in offered && j !in used;
  }

  lemma {:induction false} Complete(m: map<nat, nat>, a: Ack, e: Expected, n: nat) returns (r: map<nat, nat>)
    requires Parallel(e) && |a.sources| == |a.ids| && SourcesSuffice(a, e) && Partial(m, a, e)
    requires n <= |e.ids| && forall i | 0 <= i < n :: i in m
    ensures Partial(r, a, e) && forall i | 0 <= i < |e.ids| :: i in r
    decreases |e.ids| - n
  {
    if n == |e.ids| {
      r := m;
    } else if n in m {
      r := Complete(m, a, e, n + 1);
    } else {
      var j := FreeEntry(m, a, e, n);
      assert m[n := j][n] == j;
      r := Complete(m[n := j], a, e, n + 1);
    }
  }

  lemma PinnedMap(a: Ack, e: Expected) returns (m: map<nat, nat>)
    requires Parallel(e) && PinsHold(a, e) && PinsDistinct(e.ids)
    ensures Partial(m, a, e)
  {
    m := map i: nat | i < |e.ids| && e.ids[i].Some? :: (var j: nat :| j < |a.ids| && Fits(a, e, i, j); j);
    forall i, j | i in m && j in m && i != j
      ensures m[i] != m[j]
    {
      assert e.ids[i] != e.ids[j];
    }
  }

  lemma Sufficient(a: Ack, e: Expected)
    requires Parallel(e) && |a.sources| == |a.ids| && SourcesSuffice(a, e) && PinsHold(a, e) && PinsDistinct(e.ids)
    ensures Matchable(a, e)
  {
    var pinned := PinnedMap(a, e);
    var full := Complete(pinned, a, e, 0);
    var m: seq<nat> := seq(|e.ids|, i requires 0 <= i < |e.ids| && i in full => full[i]);
    assert Matching(m, a, e);
  }

  /** Sources under an injection: no source is used more often than it is acknowledged. */
  lemma Necessary(a: Ack, e: Expected)
    requires Parallel(e) && |a.sources| == |a.ids| && Distinct(a.ids) && Matchable(a, e)
    ensures SourcesSuffice(a, e) && PinsHold(a, e) && PinsDistinct(e.ids)
  {
    var m :| Matching(m, a, e);
    forall i | 0 <= i < |e.ids| && e.ids[i].Some?
      ensures exists j :: 0 <= j < |a.ids| && Fits(a, e, i, j)
    {
      assert Fits(a, e, i, m[i]);
    }
    forall i, j | 0 <= i < j < |e.ids| && e.ids[i].Some? && e.ids[j].Some?
      ensures e.ids[i] != e.ids[j]
    {
      assert Fits(a, e, i, m[i]) && Fits(a, e, j, m[j]);
      assert m[i] < m[j] || m[j] < m[i];
    }
    MatchedSources(m, a, e);
  }

  lemma MatchedSources(m: seq<nat>, a: Ack, e: Expected)
    requires Parallel(e) && |a.sources| == |a.ids| && Matching(m, a, e)
    ensures SourcesSuffice(a, e)
  {
    var f := map i: nat | i < |m| :: m[i];
    assert Injective(f);
    forall x
      ensures multiset(e.sources)[x] <= multiset(a.sources)[x]
    {
      IndicesCount(e.sources, x);
      IndicesCount(a.sources, x);
      ImageSize(f, Indices(e.sources, x));
      assert forall i | i in f :: Fits(a, e, i, f[i]);
      SubsetSize(Image(f, Indices(e.sources, x)), Indices(a.sources, x));
    }
  }
}
