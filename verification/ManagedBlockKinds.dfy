/** Which marked blocks belong to this program, which to the other product that shares the delimiters, and what the two edits
    do with each, stated on texts. */
module ManagedBlockKinds {
  import opened Wrappers
  import opened MarkerText
  import opened ManagedBlock
  import opened ManagedBlockSeams
  import opened WellFormedBlocks
  import opened ManagedBlockLaws

  // Newlines.

  /** The length of the first newline or character, and what collapsing makes of it. */
  function FirstLength(s: string): (n: nat)
    ensures 1 <= n <= 2
  {
    if |s| >= 2 && s[0] == '\r' && s[1] == '\n' then 2 else 1
  }

  function FirstCollapsed(s: string): string
    requires s != ""
  {
    if FirstLength(s) == 2 then "\n" else [s[0]]
  }

  lemma CollapseFirst(s: string)
    ensures s == "" ==> Collapse(s) == ""
    ensures s != "" ==> FirstLength(s) <= |s| && Collapse(s) == FirstCollapsed(s) + Collapse(s[FirstLength(s)..])
  {
  }

  lemma SameFirst(a: string, b: string)
    requires a != "" && (b == "" || a[|a| - 1] != '\r' || b[0] != '\n')
    ensures FirstLength(a + b) == FirstLength(a) && FirstCollapsed(a + b) == FirstCollapsed(a)
    ensures (a + b)[FirstLength(a)..] == a[FirstLength(a)..] + b
  {
    assert (a + b)[0] == a[0] && (|a + b| >= 2 ==> (a + b)[1] == if |a| >= 2 then a[1] else b[0]);
  }

  /** Collapsing works part by part, unless the seam itself is a CRLF. */
  lemma {:induction false} CollapseConcat(a: string, b: string)
    requires a == "" || b == "" || a[|a| - 1] != '\r' || b[0] != '\n'
    ensures Collapse(a + b) == Collapse(a) + Collapse(b)
    decreases |a|
  {
    hide Collapse, FirstCollapsed, FirstLength;
    CollapseFirst(a);
    if a == "" {
      assert a + b == b;
    } else {
      CollapseFirst(a + b);
      SameFirst(a, b);
      var n := FirstLength(a);
      CollapseConcat(a[n..], b);
      assert FirstCollapsed(a) + (Collapse(a[n..]) + Collapse(b)) == FirstCollapsed(a) + Collapse(a[n..]) + Collapse(b);
    }
  }

  /** Collapsing replaces a CRLF by LF wherever it stands. */
  lemma CollapseAtBreak(a: string, b: string)
    ensures Collapse(a + ("\r\n" + b)) == Collapse(a) + ("\n" + Collapse(b))
  {
    CollapseConcat(a, "\r\n" + b);
    CollapseFirst("\r\n" + b);
    assert ("\r\n" + b)[2..] == b;
  }

  lemma TailHasCrlf(s: string)
    requires s != ""
    ensures HasCrlf(s[1..]) ==> HasCrlf(s)
    ensures |s| >= 2 && s[0] == '\r' && s[1] == '\n' ==> HasCrlf(s)
  {
    if i :| 0 <= i < |s[1..]| - 1 && s[1..][i] == '\r' && s[1..][i + 1] == '\n' {
      assert s[i + 1] == '\r' && s[i + 1 + 1] == '\n';
    }
    assert |s| >= 2 ==> s[0 + 1] == s[1];
  }

  /** It leaves a text without CRLF alone. */
  lemma {:induction false} CollapseExact(s: string)
    requires !HasCrlf(s)
    ensures Collapse(s) == s
  {
    if s != "" {
      TailHasCrlf(s);
      CollapseFirst(s);
      hide Collapse, HasCrlf;
      CollapseExact(s[1..]);
    }
  }

  // The declaration of the other product.

  predicate Digits(s: string) {
    forall i | 0 <= i < |s| :: '0' <= s[i] <= '9'
  }

  /** A decimal number without leading zero. */
  predicate Decimal(s: string) {
    s != "" && s[0] != '0' && Digits(s)
  }

  /** The body opens with the version declaration of the other product, on its own line. */
  ghost predicate Declares(body: string, rest: string) {
    exists version :: Decimal(version) && body == "\n<!-- kiokuko-dsh-template-version: " + version + " -->\n" + rest
  }

  ghost predicate Has(s: string, m: string) {
    exists a, b :: s == a + m + b
  }

  const KEY := "kiokuko-template-version"

  /** A block of the other product: its declaration, and nowhere below it the version key of this program. */
  ghost predicate IsForeign(body: string) {
    exists rest :: Declares(body, rest) && !Has(rest, KEY)
  }

  ghost predicate IsAmbiguous(body: string) {
    exists rest :: Declares(body, rest) && Has(rest, KEY)
  }

  lemma {:induction false} DigitRunOf(version: string, rest: string)
    requires Digits(version) && (rest == "" || !('0' <= rest[0] <= '9'))
    ensures DigitRun(version + rest) == |version|
  {
    if version == "" {
      assert version + rest == rest;
    } else {
      assert (version + rest)[1..] == version[1..] + rest;
      DigitRunOf(version[1..], rest);
    }
  }

  lemma {:induction false} DigitRunDigits(s: string)
    ensures DigitRun(s) <= |s| && Digits(s[..DigitRun(s)])
  {
    if s != "" && '0' <= s[0] <= '9' {
      DigitRunDigits(s[1..]);
      var n := DigitRun(s[1..]);
      assert s[..n + 1] == [s[0]] + s[1..][..n];
    }
  }

  lemma PrefixText()
    ensures DSH_PREFIX == "\n<!-- kiokuko-dsh-template-version: " && DSH_SUFFIX == " -->\n" && TEMPLATE_KEY == KEY
  {
  }

  lemma DeclaredIsDsh(version: string, rest: string)
    requires Decimal(version)
    ensures DeclaresDsh(DSH_PREFIX + version + DSH_SUFFIX + rest)
  {
    var prefix, suffix := DSH_PREFIX, DSH_SUFFIX;
    assert suffix[0] == ' ';
    var tail := suffix + rest;
    var body := prefix + version + suffix + rest;
    DigitRunOf(version, tail);
    hide DSH_PREFIX, DSH_SUFFIX, DigitRun;
    assert body == prefix + (version + tail);
    assert body[|prefix|..] == version + tail;
    assert (version + tail)[|version|..] == tail;
  }

  lemma SplitAtRun(tail: string, n: nat, suffix: string) returns (version: string, rest: string)
    requires n <= |tail| && suffix <= tail[n..]
    ensures version == tail[..n] && tail == version + suffix + rest
  {
    version, rest := tail[..n], tail[n..][|suffix|..];
    assert tail == version + tail[n..] && tail[n..] == suffix + rest;
  }

  lemma DshDeclares(body: string) returns (version: string, rest: string)
    requires DeclaresDsh(body)
    ensures Decimal(version) && body == DSH_PREFIX + version + DSH_SUFFIX + rest
  {
    var prefix, suffix := DSH_PREFIX, DSH_SUFFIX;
    var tail := body[|prefix|..];
    DigitRunDigits(tail);
    version, rest := SplitAtRun(tail, DigitRun(tail), suffix);
    hide DSH_PREFIX, DSH_SUFFIX, Digits, DigitRun;
    assert body == prefix + tail;
    assert prefix + (version + suffix + rest) == prefix + version + suffix + rest;
  }

  // The version key.

  lemma ContainsIsHas(s: string, m: string)
    ensures Contains(s, m) <==> Has(s, m)
  {
    if i :| 0 <= i <= |s| && OccursAt(s, m, i) {
      assert s == s[..i] + m + s[i + |m|..];
    }
    if Has(s, m) {
      var a, b :| s == a + m + b;
      assert s[|a|..|a| + |m|] == m;
      assert OccursAt(s, m, |a|);
    }
  }

  lemma KeyLetters(s: string, i: int)
    requires OccursAt(s, TEMPLATE_KEY, i)
    ensures i + 8 < |s| && s[i] == 'k' && s[i + 1] == 'i' && s[i + 8] == 't'
  {
    var key := TEMPLATE_KEY;
    assert s[i] == s[i..i + |key|][0] && s[i + 1] == s[i..i + |key|][1] && s[i + 8] == s[i..i + |key|][8];
  }

  lemma PrefixLetters(i: nat)
    requires i < |DSH_PREFIX|
    ensures DSH_PREFIX[i] == 'k' ==> i + 8 < |DSH_PREFIX| && (DSH_PREFIX[i + 1] != 'i' || DSH_PREFIX[i + 8] != 't')
  {
  }

  lemma HeadLetters(version: string, i: nat)
    requires Digits(version)
    ensures var head := DSH_PREFIX + version + DSH_SUFFIX;
            i + 8 < |head| && head[i] == 'k' ==> head[i + 1] != 'i' || head[i + 8] != 't'
  {
    var head := DSH_PREFIX + version + DSH_SUFFIX;
    if i < |DSH_PREFIX| {
      PrefixLetters(i);
    } else if i < |DSH_PREFIX| + |version| {
      assert head[i] == version[i - |DSH_PREFIX|];
    } else if i < |head| {
      assert head[i] == DSH_SUFFIX[i - |DSH_PREFIX| - |version|];
    }
  }

  /** No place in the declaration starts like the key. */
  lemma NoKeyInDeclaration(version: string)
    requires Digits(version)
    ensures !Contains(DSH_PREFIX + version + DSH_SUFFIX, TEMPLATE_KEY)
  {
    var head := DSH_PREFIX + version + DSH_SUFFIX;
    hide DSH_PREFIX, DSH_SUFFIX, TEMPLATE_KEY, OccursAt;
    if i :| 0 <= i <= |head| && OccursAt(head, TEMPLATE_KEY, i) {
      KeyLetters(head, i);
      HeadLetters(version, i);
      assert false;
    }
  }

  lemma DeclaredKind(version: string, rest: string)
    requires Decimal(version)
    ensures var body := DSH_PREFIX + version + DSH_SUFFIX + rest;
            KindOf(body) == if Has(rest, KEY) then Ambiguous else Foreign
  {
    var head, key := DSH_PREFIX + version + DSH_SUFFIX, TEMPLATE_KEY;
    DeclaredIsDsh(version, rest);
    NoKeyInDeclaration(version);
    assert head[|head| - 1] == '\n' && '\n' !in key;
    ContainsIsHas(rest, key);
    hide DSH_PREFIX, DSH_SUFFIX, Has, DeclaresDsh, Digits;
    KeyIsInOnePart(head, rest, key);
    PrefixText();
  }

  lemma KeyIsInOnePart(head: string, rest: string, key: string)
    requires key != "" && head != "" && head[|head| - 1] !in key && !Contains(head, key)
    ensures Contains(head + rest, key) <==> Contains(rest, key)
  {
    forall i: nat
      ensures OccursAt(head + rest, key, i) <==> OccursAt(head, key, i) || (i >= |head| && OccursAt(rest, key, i - |head|))
    {
      OccursInConcat(head, rest, key, i);
    }
    hide OccursAt;
    if j :| 0 <= j <= |rest| && OccursAt(rest, key, j) {
      assert OccursAt(head + rest, key, j + |head|);
    }
  }

  /** What decides whose a block is, once CRLF is read as LF. */
  lemma KindIs(body: string)
    ensures KindOf(body).Foreign? <==> IsForeign(body)
    ensures KindOf(body).Ambiguous? <==> IsAmbiguous(body)
  {
    PrefixText();
    forall rest | Declares(body, rest)
      ensures KindOf(body) == if Has(rest, KEY) then Ambiguous else Foreign
    {
      var version :| Decimal(version) && body == "\n<!-- kiokuko-dsh-template-version: " + version + " -->\n" + rest;
      DeclaredKind(version, rest);
    }
    if DeclaresDsh(body) {
      var version, rest := DshDeclares(body);
      hide KindOf, Has;
      assert Declares(body, rest);
    }
  }

  // Validation, pair by pair.

  /** The marker at this place is a line of its own; the line may end in LF or CRLF. */
  ghost predicate Alone(s: string, m: string, i: nat) {
    && i + |m| <= |s| && (i == 0 || s[i - 1] == '\n')
    && (var after := s[i + |m|..]; after == "" || "\n" <= after || "\r\n" <= after)
  }

  lemma AloneIsStandalone(s: string, m: string, i: nat)
    requires i + |m| <= |s|
    ensures Standalone(s, m, i) <==> Alone(s, m, i)
  {
    var after := s[i + |m|..];
    assert after != "" ==> after[0] == s[i + |m|];
    assert |after| > 1 ==> after[1] == s[i + |m| + 1];
    assert "\r\n" <= after <==> |after| > 1 && after[0] == '\r' && after[1] == '\n' by {
      assert |after| > 1 && after[0] == '\r' && after[1] == '\n' ==> after[..2] == "\r\n";
    }
  }

  /** The text between a begin marker and an end marker, with LF newlines. */
  function Inner(s: string, mk: Markers, start: nat, end: nat): string {
    Collapse(if start + |mk.begin| <= end <= |s| then s[start + |mk.begin|..end] else "")
  }

  /** The pair stands in order, after the end of the previous one, each marker alone on its line, and is not ambiguous. */
  ghost predicate GoodPair(s: string, mk: Markers, p: seq<nat>, q: seq<nat>, k: nat)
    requires k < |p| == |q|
  {
    && p[k] < q[k] && (k > 0 ==> q[k - 1] <= p[k])
    && Alone(s, mk.begin, p[k]) && Alone(s, mk.end, q[k])
    && !IsAmbiguous(Inner(s, mk, p[k], q[k]))
  }

  ghost predicate ForeignPair(s: string, mk: Markers, p: seq<nat>, q: seq<nat>, k: nat)
    requires k < |p| == |q|
  {
    GoodPair(s, mk, p, q, k) && IsForeign(Inner(s, mk, p[k], q[k]))
  }

  ghost predicate OwnPair(s: string, mk: Markers, p: seq<nat>, q: seq<nat>, k: nat)
    requires k < |p| == |q|
  {
    GoodPair(s, mk, p, q, k) && !IsForeign(Inner(s, mk, p[k], q[k]))
  }

  /** What one pair decides. */
  ghost predicate PairDecides(s: string, mk: Markers, p: seq<nat>, q: seq<nat>, k: nat)
    requires k < |p| == |q|
  {
    var v := PairOwnership(s, mk, p, q, k);
    && (v.Malformed? <==> !GoodPair(s, mk, p, q, k))
    && (v == Owner(None) <==> ForeignPair(s, mk, p, q, k))
    && (OwnPair(s, mk, p, q, k) ==> v == Owner(Some(Region(p[k], q[k] + |mk.end|))))
  }

  lemma PairMeans(s: string, mk: Markers, p: seq<nat>, q: seq<nat>, k: nat)
    requires k < |p| == |q| && p[k] + |mk.begin| <= |s| && q[k] + |mk.end| <= |s|
    ensures PairDecides(s, mk, p, q, k)
  {
    hide Standalone, Alone, Collapse, IsForeign, IsAmbiguous, KindOf;
    AloneIsStandalone(s, mk.begin, p[k]);
    AloneIsStandalone(s, mk.end, q[k]);
    KindIs(Inner(s, mk, p[k], q[k]));
  }

  predicate OwnsRegion(v: Ownership) { v.Owner? && v.region.Some? }

  lemma {:induction false} ScanMalformed(s: string, mk: Markers, p: seq<nat>, q: seq<nat>, k: nat, j: nat)
    requires k <= j < |p| == |q| && (PairOwnership(s, mk, p, q, j).Malformed? || ScanPairs(s, mk, p, q, j).Malformed?)
    ensures ScanPairs(s, mk, p, q, k).Malformed?
    decreases j - k
  {
    hide PairOwnership;
    if k < j {
      ScanMalformed(s, mk, p, q, k + 1, j);
    }
  }

  lemma {:induction false} ScanNone(s: string, mk: Markers, p: seq<nat>, q: seq<nat>, k: nat)
    requires k <= |p| == |q| && forall j | k <= j < |p| :: PairOwnership(s, mk, p, q, j) == Owner(None)
    ensures ScanPairs(s, mk, p, q, k) == Owner(None)
    decreases |p| - k
  {
    hide PairOwnership;
    if k < |p| {
      ScanNone(s, mk, p, q, k + 1);
    }
  }

  lemma {:induction false} ScanOwned(s: string, mk: Markers, p: seq<nat>, q: seq<nat>, k: nat, j: nat)
    requires k <= j < |p| == |q| && OwnsRegion(PairOwnership(s, mk, p, q, j))
    ensures ScanPairs(s, mk, p, q, k).Malformed? || OwnsRegion(ScanPairs(s, mk, p, q, k))
    ensures (forall i | k <= i < |p| && i != j :: PairOwnership(s, mk, p, q, i) == Owner(None)) ==>
              ScanPairs(s, mk, p, q, k) == PairOwnership(s, mk, p, q, j)
    decreases j - k
  {
    hide PairOwnership;
    if k < j {
      ScanOwned(s, mk, p, q, k + 1, j);
    } else if forall i | k < i < |p| :: PairOwnership(s, mk, p, q, i) == Owner(None) {
      ScanNone(s, mk, p, q, k + 1);
    }
  }

  lemma ScanTwo(s: string, mk: Markers, p: seq<nat>, q: seq<nat>, i: nat, j: nat)
    requires i < j < |p| == |q| && OwnsRegion(PairOwnership(s, mk, p, q, i)) && OwnsRegion(PairOwnership(s, mk, p, q, j))
    ensures ScanPairs(s, mk, p, q, 0).Malformed?
  {
    hide PairOwnership;
    ScanOwned(s, mk, p, q, i + 1, j);
    ScanMalformed(s, mk, p, q, 0, i);
  }

  /** The one pair that is not foreign, when all pairs are good. */
  ghost predicate OnlyOwn(s: string, mk: Markers, p: seq<nat>, q: seq<nat>, k: nat)
    requires k < |p| == |q|
  {
    OwnPair(s, mk, p, q, k) && forall j | 0 <= j < |p| && j != k :: ForeignPair(s, mk, p, q, j)
  }

  lemma PairsDecide(s: string, mk: Markers, p: seq<nat>, q: seq<nat>)
    requires |p| == |q| && forall k: nat | k < |p| :: PairDecides(s, mk, p, q, k)
    ensures forall k: nat | k < |p| :: PairOwnership(s, mk, p, q, k).Malformed? <==> !GoodPair(s, mk, p, q, k)
    ensures forall k: nat | k < |p| :: PairOwnership(s, mk, p, q, k) == Owner(None) <==> ForeignPair(s, mk, p, q, k)
    ensures forall k: nat | k < |p| && OwnPair(s, mk, p, q, k) ::
              PairOwnership(s, mk, p, q, k) == Owner(Some(Region(p[k], q[k] + |mk.end|)))
  {
    hide PairOwnership, GoodPair, OwnPair, ForeignPair;
    forall k: nat | k < |p|
      ensures PairOwnership(s, mk, p, q, k).Malformed? <==> !GoodPair(s, mk, p, q, k)
      ensures PairOwnership(s, mk, p, q, k) == Owner(None) <==> ForeignPair(s, mk, p, q, k)
      ensures OwnPair(s, mk, p, q, k) ==> PairOwnership(s, mk, p, q, k) == Owner(Some(Region(p[k], q[k] + |mk.end|)))
    {
      assert PairDecides(s, mk, p, q, k);
    }
  }

  lemma ScanRejects(s: string, mk: Markers, p: seq<nat>, q: seq<nat>)
    requires |p| == |q| && forall k: nat | k < |p| :: PairDecides(s, mk, p, q, k)
    ensures (exists k: nat :: k < |p| && !GoodPair(s, mk, p, q, k)) ==> ScanPairs(s, mk, p, q, 0).Malformed?
    ensures (exists i: nat, j: nat :: i < j < |p| && OwnPair(s, mk, p, q, i) && OwnPair(s, mk, p, q, j))
            ==> ScanPairs(s, mk, p, q, 0).Malformed?
  {
    hide PairOwnership, GoodPair, OwnPair, ForeignPair, ScanPairs, PairDecides;
    PairsDecide(s, mk, p, q);
    if k: nat :| k < |p| && !GoodPair(s, mk, p, q, k) {
      ScanMalformed(s, mk, p, q, 0, k);
    }
    if i: nat, j: nat :| i < j < |p| && OwnPair(s, mk, p, q, i) && OwnPair(s, mk, p, q, j) {
      ScanTwo(s, mk, p, q, i, j);
    }
  }

  lemma ScanAccepts(s: string, mk: Markers, p: seq<nat>, q: seq<nat>)
    requires |p| == |q| && forall k: nat | k < |p| :: PairDecides(s, mk, p, q, k)
    ensures (forall k: nat | k < |p| :: ForeignPair(s, mk, p, q, k)) ==> ScanPairs(s, mk, p, q, 0) == Owner(None)
    ensures forall k: nat | k < |p| && OnlyOwn(s, mk, p, q, k) ::
              ScanPairs(s, mk, p, q, 0) == Owner(Some(Region(p[k], q[k] + |mk.end|)))
  {
    hide PairOwnership, GoodPair, OwnPair, ForeignPair, ScanPairs, PairDecides;
    PairsDecide(s, mk, p, q);
    if forall k: nat | k < |p| :: ForeignPair(s, mk, p, q, k) {
      ScanNone(s, mk, p, q, 0);
    }
    forall k: nat | k < |p| && OnlyOwn(s, mk, p, q, k)
      ensures ScanPairs(s, mk, p, q, 0) == Owner(Some(Region(p[k], q[k] + |mk.end|)))
    {
      ScanOwned(s, mk, p, q, 0, k);
    }
  }

  lemma ScanDecides(s: string, mk: Markers, p: seq<nat>, q: seq<nat>)
    requires |p| == |q| && forall k | 0 <= k < |p| :: p[k] + |mk.begin| <= |s| && q[k] + |mk.end| <= |s|
    ensures var v := ScanPairs(s, mk, p, q, 0);
            && ((exists k: nat :: k < |p| && !GoodPair(s, mk, p, q, k)) ==> v.Malformed?)
            && ((exists i: nat, j: nat :: i < j < |p| && OwnPair(s, mk, p, q, i) && OwnPair(s, mk, p, q, j)) ==> v.Malformed?)
            && ((forall k: nat | k < |p| :: ForeignPair(s, mk, p, q, k)) ==> v == Owner(None))
            && (forall k: nat | k < |p| && OnlyOwn(s, mk, p, q, k) :: v == Owner(Some(Region(p[k], q[k] + |mk.end|))))
  {
    hide PairOwnership, GoodPair, OwnPair, ForeignPair, ScanPairs, OnlyOwn, PairDecides;
    forall k: nat | k < |p|
      ensures PairDecides(s, mk, p, q, k)
    {
      PairMeans(s, mk, p, q, k);
    }
    ScanRejects(s, mk, p, q);
    ScanAccepts(s, mk, p, q);
  }

  /** The pairs of a text are one of: not all good, good with two own ones, good and all foreign, good with one own. */
  lemma PairsAre(s: string, mk: Markers, p: seq<nat>, q: seq<nat>)
    requires |p| == |q|
    ensures || (exists k: nat :: k < |p| && !GoodPair(s, mk, p, q, k))
            || (exists i: nat, j: nat :: i < j < |p| && OwnPair(s, mk, p, q, i) && OwnPair(s, mk, p, q, j))
            || (forall k: nat | k < |p| :: ForeignPair(s, mk, p, q, k))
            || exists k: nat :: k < |p| && OnlyOwn(s, mk, p, q, k)
  {
    if !(exists k: nat :: k < |p| && !GoodPair(s, mk, p, q, k)) && !(forall k: nat | k < |p| :: ForeignPair(s, mk, p, q, k)) {
      var k: nat :| k < |p| && !ForeignPair(s, mk, p, q, k);
      assert OwnPair(s, mk, p, q, k);
      hide GoodPair;
      if !OnlyOwn(s, mk, p, q, k) {
        var j :| 0 <= j < |p| && j != k && !ForeignPair(s, mk, p, q, j);
        assert OwnPair(s, mk, p, q, j);
      }
    }
  }

  /** A text is malformed exactly when its markers do not pair up, some pair is out of order, not alone on its lines or
      ambiguous, or two blocks are this program's; it owns nothing exactly when all its blocks are foreign; otherwise it owns
      the one block that is not. */
  lemma ValidateExactly(s: string, mk: Markers)
    requires Sound(mk)
    ensures var v, p, q := Validate(s, mk), Positions(s, mk.begin), Positions(s, mk.end);
            && (v.Malformed? <==> || |p| != |q|
                                  || (exists k: nat :: k < |p| && !GoodPair(s, mk, p, q, k))
                                  || exists i: nat, j: nat :: i < j < |p| && OwnPair(s, mk, p, q, i) && OwnPair(s, mk, p, q, j))
            && (v == Owner(None) <==> |p| == |q| && forall k: nat | k < |p| :: ForeignPair(s, mk, p, q, k))
            && (forall r :: v == Owner(Some(r)) <==>
                  |p| == |q| && exists k: nat :: k < |p| && OnlyOwn(s, mk, p, q, k) && r == Region(p[k], q[k] + |mk.end|))
  {
    var p, q := Positions(s, mk.begin), Positions(s, mk.end);
    if |p| == |q| {
      forall k | 0 <= k < |p|
        ensures p[k] + |mk.begin| <= |s| && q[k] + |mk.end| <= |s|
      {
        OccurrencesAreInside(s, mk.begin, p, k);
        OccurrencesAreInside(s, mk.end, q, k);
      }
      ScanDecides(s, mk, p, q);
      PairsAre(s, mk, p, q);
      hide Positions, Sound, GoodPair, OwnPair, ForeignPair, OnlyOwn, ScanPairs;
    }
  }

  // One marked block in a text, and what the two edits do with it.

  /** The begin marker, a body and the end marker, each marker alone on its lines, and no other marker. */
  ghost predicate Marked(mk: Markers, before: string, body: string, after: string) {
    && (before == "" || before[|before| - 1] == '\n')
    && ("\n" <= body || "\r\n" <= body) && body[|body| - 1] == '\n'
    && (after == "" || "\n" <= after || "\r\n" <= after)
    && (forall m | m == mk.begin || m == mk.end :: !Has(before, m) && !Has(body, m) && !Has(after, m))
  }

  function MarkedText(mk: Markers, before: string, body: string, after: string): string {
    before + Framed(mk, body) + after
  }

  /** The delimiters are sound, and neither contains the other. */
  predicate Delimiting(mk: Markers) {
    Sound(mk) && Positions(mk.begin, mk.end) == []
  }

  lemma KiokukoDelimits()
    ensures Delimiting(KIOKUKO)
  {
    KiokukoMarkersAreSound();
    KiokukoFirstLetters();
    EndIsNotInBegin(KIOKUKO);
  }

  lemma HasNoPositions(s: string, m: string)
    requires m != "" && !Has(s, m)
    ensures Positions(s, m) == []
  {
    ContainsIsHas(s, m);
    AbsentPositions(s, m);
    hide Positions;
    forall i
      ensures !OccursAt(s, m, i)
    {
      assert OccursAt(s, m, i) ==> 0 <= i <= |s|;
    }
  }

  lemma MarkedParts(mk: Markers, before: string, body: string, after: string)
    requires Sound(mk) && Marked(mk, before, body, after)
    ensures EndsLine(before) && body != "" && StartsWithBreak(body) && EndsLine(body) && StartsWithBreak(after)
    ensures NoMarkers(before, mk) && NoMarkers(body, mk) && NoMarkers(after, mk)
  {
    hide Positions;
    HasNoPositions(before, mk.begin);
    HasNoPositions(before, mk.end);
    HasNoPositions(body, mk.begin);
    HasNoPositions(body, mk.end);
    HasNoPositions(after, mk.begin);
    HasNoPositions(after, mk.end);
  }

  /** What follows the first part of a marked text at position |before|. */
  lemma MarkedAt(mk: Markers, before: string, body: string, after: string)
    ensures var s, start, end := MarkedText(mk, before, body, after), |before|, |before| + |mk.begin| + |body|;
            && start + |mk.begin| <= end && end + |mk.end| <= |s|
            && s[..start] == before && s[start + |mk.begin|..end] == body && s[end + |mk.end|..] == after
            && s[start..end + |mk.end|] == Framed(mk, body)
  {
    var s, start, end := MarkedText(mk, before, body, after), |before|, |before| + |mk.begin| + |body|;
    assert s[start + |mk.begin|..end] == body;
  }

  /** Around a text, whole lines without the marker change the places of its occurrences only. */
  lemma PositionsAround(before: string, middle: string, after: string, m: string)
    requires PlainMarker(m) && EndsLine(before) && StartsWithBreak(after)
    requires Positions(before, m) == [] && Positions(after, m) == []
    ensures Positions(before + middle + after, m) == Shift(Positions(middle, m), |before|)
  {
    hide Positions;
    PositionsConcat(before, middle, m);
    PositionsConcat(before + middle, after, m);
    assert Shift([], |before + middle|) == [];
    assert [] + Shift(Positions(middle, m), |before|) + [] == Shift(Positions(middle, m), |before|);
  }

  lemma MarkedPositions(mk: Markers, before: string, body: string, after: string)
    requires Delimiting(mk) && Marked(mk, before, body, after)
    ensures var s := MarkedText(mk, before, body, after);
            Positions(s, mk.begin) == [|before|] && Positions(s, mk.end) == [|before| + |mk.begin| + |body|]
  {
    hide Positions, Unbordered, Marked, StartsWithBreak, EndsLine, PlainMarker;
    MarkedParts(mk, before, body, after);
    var framed := Framed(mk, body);
    FramePositions(mk, body);
    assert Shift([], |mk.begin|) == [];
    assert Shift([|body|], |mk.begin|) == [|mk.begin| + |body|];
    PositionsAround(before, framed, after, mk.begin);
    PositionsAround(before, framed, after, mk.end);
    assert Shift([0], |before|) == [|before|];
    assert Shift([|mk.begin| + |body|], |before|) == [|before| + |mk.begin| + |body|];
  }

  lemma MarkedIsAlone(mk: Markers, before: string, body: string, after: string)
    requires Delimiting(mk) && Marked(mk, before, body, after)
    ensures var s := MarkedText(mk, before, body, after);
            Alone(s, mk.begin, |before|) && Alone(s, mk.end, |before| + |mk.begin| + |body|)
  {
    hide Positions, Unbordered, Has;
    var s, start, end := MarkedText(mk, before, body, after), |before|, |before| + |mk.begin| + |body|;
    MarkedAt(mk, before, body, after);
    assert s[start + |mk.begin|..] == body + s[end..];
    assert end > 0 && s[end - 1] == body[|body| - 1];
  }

  lemma MarkedDecides(mk: Markers, before: string, body: string, after: string)
    requires Delimiting(mk) && Marked(mk, before, body, after)
    ensures var s, lf, v := MarkedText(mk, before, body, after), Collapse(body), Validate(MarkedText(mk, before, body, after), mk);
            && (IsForeign(lf) ==> v == Owner(None))
            && (IsAmbiguous(lf) ==> v.Malformed?)
            && (!IsForeign(lf) && !IsAmbiguous(lf) ==> v == Owner(Some(Region(|before|, |before| + |Framed(mk, body)|))))
  {
    hide Positions, Marked, Collapse, IsForeign, IsAmbiguous, Alone, Validate, Sound;
    var s, start, end := MarkedText(mk, before, body, after), |before|, |before| + |mk.begin| + |body|;
    MarkedPositions(mk, before, body, after);
    MarkedIsAlone(mk, before, body, after);
    MarkedAt(mk, before, body, after);
    BodyIsNotEmpty(mk, before, body, after);
    ValidateExactly(s, mk);
    assert |Framed(mk, body)| == |mk.begin| + |body| + |mk.end|;
    var p: seq<nat>, q: seq<nat> := [start], [end];
    assert Inner(s, mk, start, end) == Collapse(body);
    assert GoodPair(s, mk, p, q, 0) <==> !IsAmbiguous(Collapse(body));
    if !IsForeign(Collapse(body)) && !IsAmbiguous(Collapse(body)) {
      assert OnlyOwn(s, mk, p, q, 0);
    }
    OneKind(Collapse(body));
  }

  lemma BodyIsNotEmpty(mk: Markers, before: string, body: string, after: string)
    requires Marked(mk, before, body, after)
    ensures |body| > 0
  {
  }

  lemma OneKind(body: string)
    ensures !(IsForeign(body) && IsAmbiguous(body))
  {
    KindIs(body);
    hide IsForeign, IsAmbiguous, KindOf;
  }

  lemma UpsertOfRegion(u: string, mk: Markers, before: string, old_: string, after: string, block: string)
    requires Owns(u, mk, before, old_, after)
    ensures var n := NormalizeBlock(block, NewlineFor(u));
            Upsert(u, block, mk) == Some(Upserted(before + n + after, if n == old_ then Unchanged else Updated))
  {
    hide Validate, NormalizeBlock, NewlineFor;
    assert u[..|before|] == before && u[|before|..|before| + |old_|] == old_ && u[|before| + |old_|..] == after;
  }

  /** A block of the other product is kept whole: insertion appends, and removal finds nothing. */
  lemma ForeignBlockIsKept(mk: Markers, before: string, body: string, after: string, block: string)
    requires Delimiting(mk) && Marked(mk, before, body, after) && IsForeign(Collapse(body))
    ensures var s := MarkedText(mk, before, body, after);
            && Remove(s, mk) == Some(Removed(Some(s), Absent))
            && Upsert(s, block, mk).Some? && Upsert(s, block, mk).value.action == Created
            && s <= Upsert(s, block, mk).value.content
  {
    hide Validate, Marked, IsForeign, Collapse, Separator, NormalizeBlock, Sound;
    MarkedDecides(mk, before, body, after);
  }

  /** A block that looks like both is refused by both edits. */
  lemma AmbiguousBlockIsRefused(mk: Markers, before: string, body: string, after: string, block: string)
    requires Delimiting(mk) && Marked(mk, before, body, after) && IsAmbiguous(Collapse(body))
    ensures var s := MarkedText(mk, before, body, after); Upsert(s, block, mk).None? && Remove(s, mk).None?
  {
    hide Validate, Marked, IsAmbiguous, Collapse, Sound;
    MarkedDecides(mk, before, body, after);
  }

  /** Any other block is this program's: insertion puts the new block in its place, and removal takes it out. */
  lemma OwnBlockIsReplaced(mk: Markers, before: string, body: string, after: string, block: string)
    requires Delimiting(mk) && Marked(mk, before, body, after) && !IsForeign(Collapse(body)) && !IsAmbiguous(Collapse(body))
    ensures var s := MarkedText(mk, before, body, after);
            var n := NormalizeBlock(block, NewlineFor(s));
            && Upsert(s, block, mk) == Some(Upserted(before + n + after, if n == Framed(mk, body) then Unchanged else Updated))
            && Remove(s, mk) == Some(if before + after == "" then Removed(None, Deleted)
                                     else Removed(Some(before + after), Rewritten))
  {
    hide Validate, Marked, IsForeign, IsAmbiguous, Collapse, Sound, Framed, NormalizeBlock, NewlineFor, Upsert, Remove;
    MarkedDecides(mk, before, body, after);
    UpsertOfRegion(MarkedText(mk, before, body, after), mk, before, Framed(mk, body), after, block);
    RemoveOfOwner(MarkedText(mk, before, body, after), mk, before, Framed(mk, body), after);
  }

  // Separators and newline styles.

  /** A new block is set off by two line breaks after a text that ends in one, and by three otherwise, in the newline style of
      the file: CRLF as soon as one occurs. */
  lemma AppendedApart(existing: string, block: string, mk: Markers)
    requires Validate(existing, mk) == Owner(None) && existing != ""
    ensures var n := if HasCrlf(existing) then "\r\n" else "\n";
            var broken := existing[|existing| - 1] == '\n' || existing[|existing| - 1] == '\r';
            Upsert(existing, block, mk)
            == Some(Upserted(existing + (if broken then n + n else n + n + n) + NormalizeBlock(block, n), Created))
  {
    hide Validate, NormalizeBlock;
  }

  /** Normalising first reads CRLF as LF, then writes every LF in the given style and nothing else. */
  lemma NormalizedStyle(a: string, b: string)
    requires '\r' !in a && '\r' !in b
    ensures NormalizeBlock(a + ("\n" + b), "\n") == a + ("\n" + b)
    ensures NormalizeBlock(a + ("\n" + b), "\r\n") == NormalizeBlock(a, "\r\n") + ("\r\n" + NormalizeBlock(b, "\r\n"))
    ensures '\n' !in a ==> NormalizeBlock(a, "\r\n") == a
  {
    CollapseWithoutCr(a);
    CollapseWithoutCr(b);
    CollapseWithoutCr(a + ("\n" + b));
    ExpandConcat(a, "\n" + b);
    assert ("\n" + b)[1..] == b;
    assert Expand("\n" + b) == "\r\n" + Expand(b);
    if '\n' !in a {
      ExpandPlain(a);
    }
  }
}
