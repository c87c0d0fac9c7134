/** Occurrences of a marker in a text, and newline conversion. */
module MarkerText {

  predicate OccursAt(s: string, m: string, i: int) {
    0 <= i <= |s| - |m| && s[i..i + |m|] == m
  }

  predicate Contains(s: string, m: string) {
    exists i | 0 <= i <= |s| :: OccursAt(s, m, i)
  }

  /** All occurrences from position i on, in increasing order. */
  function PositionsFrom(s: string, m: string, i: nat): seq<nat>
    decreases |s| - i
  {
    if i + |m| > |s| || i >= |s| then []
    else if OccursAt(s, m, i) then [i] + PositionsFrom(s, m, i + 1)
    else PositionsFrom(s, m, i + 1)
  }

  function Positions(s: string, m: string): seq<nat> { PositionsFrom(s, m, 0) }

  /** A marker whose first letter does not come back, so that it cannot overlap itself. */
  predicate Unbordered(m: string) {
    m != "" && forall k | 0 < k < |m| :: m[k] != m[0]
  }

  predicate Increasing(p: seq<nat>) {
    forall i, j | 0 <= i < j < |p| :: p[i] < p[j]
  }

  lemma StepPositions(s: string, m: string, i: nat, rest: seq<nat>)
    requires Increasing(rest) && forall j :: j in rest <==> j >= i + 1 && OccursAt(s, m, j)
    ensures var p := if OccursAt(s, m, i) then [i] + rest else rest;
            Increasing(p) && forall j :: j in p <==> j >= i && OccursAt(s, m, j)
  {
    hide OccursAt;
    assert forall k | 0 <= k < |rest| :: rest[k] in rest;
  }

  lemma {:induction false} PositionsFromExact(s: string, m: string, i: nat)
    requires m != ""
    ensures Increasing(PositionsFrom(s, m, i))
    ensures forall j :: j in PositionsFrom(s, m, i) <==> j >= i && OccursAt(s, m, j)
    decreases |s| - i
  {
    if i + |m| <= |s| && i < |s| {
      var rest := PositionsFrom(s, m, i + 1);
      PositionsFromExact(s, m, i + 1);
      StepPositions(s, m, i, rest);
    }
  }

  lemma HasMember(q: seq<nat>)
    ensures q != [] ==> exists j :: j in q
  {
    if q != [] {
      assert q[0] in q;
    }
  }

  /** Two increasing sequences with the same members are the same. */
  lemma {:induction false} SameMembers(p: seq<nat>, q: seq<nat>)
    requires Increasing(p) && Increasing(q)
    requires forall j :: j in p <==> j in q
    ensures p == q
    decreases |p|
  {
    if p == [] {
      HasMember(q);
    } else {
      assert p[0] in q && q[0] in p;
      assert p[0] == q[0];
      forall j: nat
        ensures j in p[1..] <==> j in q[1..]
      {
        assert j in p[1..] <==> j in p && j != p[0];
        assert j in q[1..] <==> j in q && j != q[0];
      }
      SameMembers(p[1..], q[1..]);
    }
  }

  method IndexOf(s: string, m: string, start: nat) returns (index: int)
    requires start <= |s| && m != ""
    ensures index < 0 ==> forall i | start <= i :: !OccursAt(s, m, i)
    ensures index >= 0 ==> start <= index && OccursAt(s, m, index) && forall i | start <= i < index :: !OccursAt(s, m, i)
  {
    index := start;
    while index + |m| <= |s|
      invariant start <= index
      invariant forall i | start <= i < index :: !OccursAt(s, m, i)
      decreases |s| - index
    {
      if s[index..index + |m|] == m {
        return;
      }
      index := index + 1;
    }
    index := -1;
  }

  /** The scan jumps over each match; an unbordered marker loses no occurrence that way. */
  method MarkerPositions(content: string, marker: string) returns (positions: seq<nat>)
    requires Unbordered(marker)
    ensures positions == Positions(content, marker)
  {
    positions := [];
    var start := 0;
    while true
      invariant start <= |content|
      invariant Increasing(positions)
      invariant forall j :: j in positions <==> 0 <= j < start && OccursAt(content, marker, j)
      decreases |content| - start
    {
      var index := IndexOf(content, marker, start);
      if index < 0 {
        PositionsFromExact(content, marker, 0);
        SameMembers(positions, Positions(content, marker));
        return;
      }
      forall j | index < j < index + |marker|
        ensures !OccursAt(content, marker, j)
      {
        Overlap(content, marker, index, j);
      }
      assert forall j | 0 <= j < |positions| :: positions[j] in positions;
      positions := positions + [index];
      start := index + |marker|;
    }
  }

  lemma FirstLetter(s: string, m: string)
    requires m != ""
    ensures forall j | OccursAt(s, m, j) :: s[j] == m[0]
  {
  }

  lemma Overlap(s: string, m: string, i: nat, j: nat)
    requires Unbordered(m) && OccursAt(s, m, i) && i < j < i + |m|
    ensures !OccursAt(s, m, j)
  {
    assert s[j] == s[i..i + |m|][j - i] == m[j - i];
    FirstLetter(s, m);
  }

  // Concatenation.

  predicate Lacks(m: string, c: char) { c !in m }

  /** No occurrence can lie across the seam. */
  predicate Seam(a: string, b: string, m: string) {
    a == "" || b == "" || Lacks(m, a[|a| - 1]) || Lacks(m, b[0])
  }

  lemma OccursInConcat(a: string, b: string, m: string, i: nat)
    requires m != "" && Seam(a, b, m)
    ensures OccursAt(a + b, m, i) <==> OccursAt(a, m, i) || (i >= |a| && OccursAt(b, m, i - |a|))
  {
    var s := a + b;
    if i + |m| <= |a| {
      assert s[i..i + |m|] == a[i..i + |m|];
    } else if i >= |a| {
      if i + |m| <= |s| {
        assert s[|a|..] == b;
        assert s[i..i + |m|] == s[|a|..][i - |a|..i - |a| + |m|];
      }
    } else if i + |m| <= |s| {
      // across the seam
      var w := s[i..i + |m|];
      assert w[|a| - 1 - i] == a[|a| - 1] && w[|a| - i] == b[0];
    }
  }

  function Shift(p: seq<nat>, n: nat): seq<nat> {
    seq(|p|, i requires 0 <= i < |p| => p[i] + n)
  }

  lemma PositionsConcat(a: string, b: string, m: string)
    requires m != "" && Seam(a, b, m)
    ensures Positions(a + b, m) == Positions(a, m) + Shift(Positions(b, m), |a|)
  {
    var p, q, r := Positions(a, m), Positions(b, m), Positions(a + b, m);
    PositionsFromExact(a, m, 0);
    PositionsFromExact(b, m, 0);
    PositionsFromExact(a + b, m, 0);
    var t := p + Shift(q, |a|);
    forall i, j | 0 <= i < j < |t|
      ensures t[i] < t[j]
    {
      if i < |p| <= j {
        assert p[i] in p;
      }
    }
    forall j: nat
      ensures j in t <==> j in r
    {
      OccursInConcat(a, b, m, j);
      ShiftedMember(q, |a|, j);
    }
    SameMembers(t, r);
  }

  lemma ShiftedMember(q: seq<nat>, n: nat, j: nat)
    ensures j in Shift(q, n) <==> j >= n && j - n in q
  {
    if j >= n && j - n in q {
      var i :| 0 <= i < |q| && q[i] == j - n;
      assert Shift(q, n)[i] == j;
    }
    if j in Shift(q, n) {
      var i :| 0 <= i < |q| && Shift(q, n)[i] == j;
      assert q[i] == j - n;
    }
  }

  // Newlines.

  predicate HasCrlf(s: string) {
    exists i | 0 <= i < |s| - 1 :: s[i] == '\r' && s[i + 1] == '\n'
  }

  /** Replace every CRLF by LF. */
  function Collapse(s: string): string {
    if s == "" then ""
    else if |s| >= 2 && s[0] == '\r' && s[1] == '\n' then "\n" + Collapse(s[2..])
    else [s[0]] + Collapse(s[1..])
  }

  /** Replace every LF by CRLF. */
  function Expand(s: string): string {
    if s == "" then ""
    else if s[0] == '\n' then "\r\n" + Expand(s[1..])
    else [s[0]] + Expand(s[1..])
  }

  lemma {:induction false} CollapseWithoutCr(s: string)
    requires '\r' !in s
    ensures Collapse(s) == s
  {
    if s != "" {
      CollapseWithoutCr(s[1..]);
    }
  }

  lemma {:induction false} CollapseExpand(s: string)
    requires '\r' !in s
    ensures Collapse(Expand(s)) == s
  {
    if s != "" {
      CollapseExpand(s[1..]);
      var e := Expand(s[1..]);
      if s[0] == '\n' {
        assert ("\r\n" + e)[2..] == e;
      } else {
        assert ([s[0]] + e)[1..] == e;
      }
    }
  }

  lemma {:induction false} ExpandConcat(a: string, b: string)
    ensures Expand(a + b) == Expand(a) + Expand(b)
  {
    if a == "" {
      assert a + b == b;
    } else {
      assert (a + b)[1..] == a[1..] + b;
      ExpandConcat(a[1..], b);
    }
  }

  lemma {:induction false} ExpandPlain(s: string)
    requires '\n' !in s
    ensures Expand(s) == s
  {
    if s != "" {
      ExpandPlain(s[1..]);
    }
  }

  predicate PlainMarker(m: string) {
    m != "" && '\n' !in m && '\r' !in m
  }

  lemma {:induction false} ExpandedPrefix(s: string, m: string)
    requires '\n' !in m && '\r' !in m && m <= Expand(s)
    ensures m <= s
    decreases |m|
  {
    if m != "" {
      assert s != "" && Expand(s)[0] == m[0] && s[0] == m[0] != '\n';
      assert Expand(s)[1..] == Expand(s[1..]);
      assert m[1..] <= Expand(s[1..]);
      ExpandedPrefix(s[1..], m[1..]);
    }
  }

  lemma OccursInTail(s: string, m: string, j: int)
    requires s != ""
    ensures OccursAt(s[1..], m, j) ==> OccursAt(s, m, j + 1)
  {
  }

  lemma OccursAsPrefix(s: string, m: string)
    ensures m <= s ==> OccursAt(s, m, 0)
  {
  }

  /** Converting newlines creates no occurrence of a one-line marker. */
  lemma {:induction false} ExpandKeepsAbsence(s: string, m: string, i: nat)
    requires PlainMarker(m)
    requires forall j :: !OccursAt(s, m, j)
    ensures !OccursAt(Expand(s), m, i)
    decreases |s|
  {
    if s != "" && OccursAt(Expand(s), m, i) {
      var e := Expand(s);
      var head := if s[0] == '\n' then 2 else 1;
      assert e[head..] == Expand(s[1..]);
      assert e[i] == e[i..i + |m|][0] == m[0];
      if i >= head {
        assert e[i..i + |m|] == e[head..][i - head..i - head + |m|];
        forall j
          ensures !OccursAt(s[1..], m, j)
        {
          OccursInTail(s, m, j);
        }
        ExpandKeepsAbsence(s[1..], m, i - head);
      } else if s[0] != '\n' {
        ExpandedPrefix(s, m);
        OccursAsPrefix(s, m);
      }
    }
  }

  lemma AbsentPositions(s: string, m: string)
    requires m != ""
    ensures Positions(s, m) == [] <==> forall j :: !OccursAt(s, m, j)
  {
    PositionsFromExact(s, m, 0);
    if Positions(s, m) != [] {
      assert Positions(s, m)[0] in Positions(s, m);
    }
  }
}
