/** Well-formed blocks: their shape, and that converting newlines keeps them owned. */
module WellFormedBlocks {
  import opened Wrappers
  import opened MarkerText
  import opened ManagedBlock
  import opened ManagedBlockSeams
  import opened ManagedBlockShape

  /** An LF-only text that is exactly one owned region. */
  predicate WellFormed(block: string, mk: Markers) {
    '\r' !in block && Validate(block, mk) == Owner(Some(Region(0, |block|)))
  }

  predicate NoMarkers(s: string, mk: Markers) {
    Positions(s, mk.begin) == [] && Positions(s, mk.end) == []
  }

  function Framed(mk: Markers, body: string): string {
    mk.begin + (body + mk.end)
  }

  /** A body that, framed by the markers, is an owned block. */
  predicate GoodBody(body: string, mk: Markers) {
    && body != "" && StartsWithBreak(body) && EndsLine(body)
    && NoMarkers(body, mk) && Positions(mk.begin, mk.end) == [] && KindOf(Collapse(body)).Own?
  }

  // The body of a well-formed block.

  lemma SelfPosition(m: string)
    requires m != ""
    ensures Positions(m, m) == [0]
  {
    PositionsFromExact(m, m, 0);
    assert OccursAt(m, m, 0) by {
      assert m[0..|m|] == m;
    }
    var zero: seq<nat> := [0];
    SameMembers(Positions(m, m), zero);
  }

  lemma TooShort(s: string, m: string)
    requires |s| < |m|
    ensures Positions(s, m) == []
  {
  }

  lemma FramePositions(mk: Markers, body: string)
    requires Sound(mk) && body != "" && StartsWithBreak(body) && EndsLine(body)
    ensures Positions(Framed(mk, body), mk.begin) == [0] + Shift(Positions(body, mk.begin), |mk.begin|)
    ensures Positions(Framed(mk, body), mk.end)
            == Positions(mk.begin, mk.end) + Shift(Positions(body, mk.end) + [|body|], |mk.begin|)
  {
    hide Positions, Unbordered;
    var rest := body + mk.end;
    PositionsConcat(mk.begin, rest, mk.begin);
    PositionsConcat(body, mk.end, mk.begin);
    SelfPosition(mk.begin);
    TooShort(mk.end, mk.begin);
    assert Shift([], |body|) == [];
    PositionsConcat(mk.begin, rest, mk.end);
    PositionsConcat(body, mk.end, mk.end);
    SelfPosition(mk.end);
    assert Shift([0], |body|) == [|body|];
  }

  lemma BlockParts(block: string, mk: Markers) returns (body: string)
    requires Sound(mk) && WellFormed(block, mk)
    ensures block == Framed(mk, body) && '\r' !in body
    ensures body != "" && StartsWithBreak(body) && EndsLine(body)
    ensures KindOf(body).Own?
  {
    hide Validate, Positions, Unbordered, Collapse, KindOf;
    var _ := RegionFacts(block, mk, Region(0, |block|));
    var e := |block| - |mk.end|;
    EndAfterBegin(block, mk, e);
    body := block[|mk.begin|..e];
    assert block == Framed(mk, body);
    CollapseWithoutCr(body);
  }

  lemma EndAfterBegin(block: string, mk: Markers, e: nat)
    requires PlainMarker(mk.begin) && OccursAt(block, mk.begin, 0)
    requires 0 < e <= |block| && Standalone(block, mk.begin, 0) && Standalone(block, mk.end, e) && |mk.end| > 0
    requires '\r' !in block && e + |mk.end| == |block|
    ensures e > |mk.begin| && block[|mk.begin|] == '\n' == block[e - 1]
  {
  }

  lemma BodyIsGood(block: string, mk: Markers) returns (body: string)
    requires Sound(mk) && WellFormed(block, mk)
    ensures block == Framed(mk, body) && '\r' !in body && GoodBody(body, mk)
  {
    hide Positions, Unbordered, KindOf, Collapse;
    body := BlockParts(block, mk);
    FramePositions(mk, body);
    var i := RegionFacts(block, mk, Region(0, |block|));
    assert block[..|block|] == block && block[|block|..] == "";
    JoinedBeforeBreak(block, "", mk);
    OnePair(block, mk, |block|, i);
    CollapseWithoutCr(body);
  }

  // Every such frame is owned.

  lemma FramedStandalone(mk: Markers, body: string)
    requires Sound(mk) && body != "" && StartsWithBreak(body) && EndsLine(body)
    ensures Standalone(Framed(mk, body), mk.begin, 0)
    ensures Standalone(Framed(mk, body), mk.end, |mk.begin| + |body|)
  {
  }

  lemma FramedIsOwned(mk: Markers, body: string)
    requires Sound(mk) && GoodBody(body, mk)
    ensures var s := Framed(mk, body); Validate(s, mk) == Owner(Some(Region(0, |s|))) && Balanced(s, mk)
  {
    hide Positions, Unbordered, PlainMarker, Standalone, KindOf, Collapse;
    var s := Framed(mk, body);
    FramePositions(mk, body);
    FramedStandalone(mk, body);
    assert Positions(s, mk.begin) == [0];
    assert Positions(s, mk.end) == [|mk.begin| + |body|];
    assert s[|mk.begin|..|mk.begin| + |body|] == body;
    OneVerdict(s, mk, 0, |mk.begin| + |body|);
  }

  lemma OneVerdict(s: string, mk: Markers, start: nat, end: nat)
    requires Positions(s, mk.begin) == [start] && Positions(s, mk.end) == [end]
    ensures Validate(s, mk) == Verdict(s, mk, start, end)
  {
    hide Positions, Verdict;
    var p: seq<nat>, q: seq<nat> := [start], [end];
    assert ScanPairs(s, mk, p, q, 1) == Owner(None);
    CombineAssociates(Verdict(s, mk, start, end), Owner(None), Owner(None));
  }

  // Normalised blocks.

  lemma ExpandFramed(mk: Markers, body: string)
    requires Sound(mk)
    ensures Expand(Framed(mk, body)) == Framed(mk, Expand(body))
  {
    hide Expand, Unbordered;
    ExpandConcat(mk.begin, body + mk.end);
    ExpandConcat(body, mk.end);
    ExpandPlain(mk.begin);
    ExpandPlain(mk.end);
  }

  lemma {:induction false} ExpandEnds(s: string)
    requires s != ""
    ensures Expand(s) != "" && Expand(s)[|Expand(s)| - 1] == s[|s| - 1]
  {
    if |s| > 1 {
      ExpandEnds(s[1..]);
    }
  }

  lemma ExpandedHasNoMarkers(mk: Markers, body: string)
    requires Sound(mk) && NoMarkers(body, mk)
    ensures NoMarkers(Expand(body), mk)
  {
    hide Positions, Expand, Unbordered, OccursAt;
    AbsentStays(body, mk.begin);
    AbsentStays(body, mk.end);
  }

  lemma AbsentStays(s: string, m: string)
    requires PlainMarker(m) && Positions(s, m) == []
    ensures Positions(Expand(s), m) == []
  {
    hide Positions, Expand;
    AbsentPositions(s, m);
    AbsentPositions(Expand(s), m);
    forall i: int
      ensures !OccursAt(Expand(s), m, i)
    {
      if i >= 0 {
        ExpandKeepsAbsence(s, m, i);
      }
    }
  }

  lemma ExpandedBodyIsGood(mk: Markers, body: string)
    requires Sound(mk) && GoodBody(body, mk) && '\r' !in body
    ensures GoodBody(Expand(body), mk)
  {
    hide Positions, KindOf, Unbordered;
    ExpandEnds(body);
    ExpandedHasNoMarkers(mk, body);
    CollapseExpand(body);
    CollapseWithoutCr(body);
    hide Collapse;
  }

  /** The kinds of newline that a text can be converted to. */
  predicate IsNewline(n: string) { n == "\n" || n == "\r\n" }

  /** A framed block begins and ends with a marker letter. */
  predicate HardEdges(s: string) {
    && s != "" && s[0] != '\n' && s[0] != '\r'
    && s[|s| - 1] != '\n' && s[|s| - 1] != '\r'
  }

  lemma FramedEdges(mk: Markers, body: string)
    requires Sound(mk)
    ensures HardEdges(Framed(mk, body))
  {
  }

  lemma {:induction false} ExpandHasCrlf(s: string, i: nat)
    requires i < |s| && s[i] == '\n'
    ensures HasCrlf(Expand(s)) && |Expand(s)| > |s|
  {
    ExpandGrows(s);
    if s[0] == '\n' {
      ExpandGrows(s[1..]);
      assert Expand(s)[0] == '\r' && Expand(s)[1] == '\n';
    } else {
      ExpandHasCrlf(s[1..], i - 1);
      var t := Expand(s[1..]);
      var j :| 0 <= j < |t| - 1 && t[j] == '\r' && t[j + 1] == '\n';
      assert Expand(s)[j + 1] == '\r' && Expand(s)[j + 2] == '\n';
    }
  }

  lemma {:induction false} ExpandGrows(s: string)
    ensures |Expand(s)| >= |s|
  {
    if s != "" {
      ExpandGrows(s[1..]);
    }
  }

  /** A normalised well-formed block is one owned region, in the chosen newline style throughout. */
  lemma NormalizedIsOwned(block: string, mk: Markers, newline: string)
    requires Sound(mk) && WellFormed(block, mk) && IsNewline(newline)
    ensures var n := NormalizeBlock(block, newline); Validate(n, mk) == Owner(Some(Region(0, |n|))) && Balanced(n, mk)
    ensures HardEdges(NormalizeBlock(block, newline))
  {
    hide Validate, Positions, Unbordered, KindOf, Expand, Collapse, GoodBody, Balanced;
    var body := BodyIsGood(block, mk);
    CollapseWithoutCr(block);
    ExpandFramed(mk, body);
    ExpandedBodyIsGood(mk, body);
    FramedIsOwned(mk, body);
    FramedIsOwned(mk, Expand(body));
    FramedEdges(mk, body);
    FramedEdges(mk, Expand(body));
  }

  lemma NormalizedNewlines(block: string, mk: Markers)
    requires Sound(mk) && WellFormed(block, mk)
    ensures NormalizeBlock(block, "\n") == block && HasCrlf(NormalizeBlock(block, "\r\n"))
    ensures NormalizeBlock(block, "\r\n") != block
  {
    hide Validate, Positions, Unbordered, KindOf, Expand, Collapse;
    var body := BodyIsGood(block, mk);
    CollapseWithoutCr(block);
    assert block[|mk.begin|] == body[0] == '\n';
    ExpandHasCrlf(block, |mk.begin|);
  }
}
