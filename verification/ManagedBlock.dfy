/** The managed block of an agent file: markers, their validation, insertion and removal. */
module ManagedBlock {
  import opened Wrappers
  import opened MarkerText

  datatype Region = Region(start: nat, end: nat)

  /** The two delimiter lines. */
  datatype Markers = Markers(begin: string, end: string)

  const NAME := " KIOKUKO MANAGED BLOCK -->"
  const KIOKUKO := Markers("<!-- BEGIN" + NAME, "<!-- END" + NAME)

  /** What the two delimiters must be for the scan to be exact: single-line, not overlapping themselves,
      and the end marker shorter than, and no prefix of, the begin marker. */
  predicate Sound(mk: Markers) {
    && Unbordered(mk.begin) && PlainMarker(mk.begin)
    && Unbordered(mk.end) && PlainMarker(mk.end)
    && |mk.end| < |mk.begin| && !(mk.end <= mk.begin)
  }

  function CharAt(s: string, i: int): string {
    if 0 <= i < |s| then [s[i]] else ""
  }

  /** The marker stands alone on its line; the line may end in LF or CRLF. */
  predicate Standalone(s: string, m: string, i: nat) {
    && (i == 0 || CharAt(s, i - 1) == "\n")
    && (i + |m| == |s| || CharAt(s, i + |m|) == "\n"
        || (CharAt(s, i + |m|) == "\r" && CharAt(s, i + |m| + 1) == "\n"))
  }

  // Foreign blocks that use the same delimiters.

  function DigitRun(s: string): nat {
    if s != "" && '0' <= s[0] <= '9' then 1 + DigitRun(s[1..]) else 0
  }

  const DSH_PREFIX := "\n<!-- kiokuko-dsh-template-version: "
  const DSH_SUFFIX := " -->\n"
  const TEMPLATE_KEY := "kiokuko-template-version"

  /** The body opens with a template-version declaration of the other product. */
  predicate DeclaresDsh(body: string) {
    && DSH_PREFIX <= body
    && var rest := body[|DSH_PREFIX|..];
       rest != "" && '1' <= rest[0] <= '9' && DigitRun(rest) <= |rest| && DSH_SUFFIX <= rest[DigitRun(rest)..]
  }

  datatype BlockKind = Foreign | Own | Ambiguous

  function KindOf(body: string): BlockKind {
    if !DeclaresDsh(body) then Own
    else if Contains(body, TEMPLATE_KEY) then Ambiguous else Foreign
  }

  function Between(s: string, i: int, j: int): string {
    if 0 <= i <= j <= |s| then s[i..j] else ""
  }

  function KindAt(s: string, mk: Markers, start: nat, end: nat): BlockKind {
    KindOf(Collapse(Between(s, start + |mk.begin|, end)))
  }

  // Validation.

  /** The owned region, or none, or malformed. */
  datatype Ownership = Malformed | Owner(region: Option<Region>)

  function Combine(a: Ownership, b: Ownership): Ownership {
    if a.Malformed? || b.Malformed? then Malformed
    else if a.region.Some? && b.region.Some? then Malformed
    else if a.region.Some? then a else b
  }

  /** What one begin marker and its end marker say. */
  function Verdict(s: string, mk: Markers, start: nat, end: nat): Ownership {
    if start >= end || !Standalone(s, mk.begin, start) || !Standalone(s, mk.end, end) then Malformed
    else match KindAt(s, mk, start, end)
         case Ambiguous => Malformed
         case Foreign => Owner(None)
         case Own => Owner(Some(Region(start, end + |mk.end|)))
  }

  /** A pair must not start before the previous one has ended. */
  function PairOwnership(s: string, mk: Markers, p: seq<nat>, q: seq<nat>, k: nat): Ownership
    requires k < |p| == |q|
  {
    if k > 0 && p[k] < q[k - 1] then Malformed else Verdict(s, mk, p[k], q[k])
  }

  function ScanPairs(s: string, mk: Markers, p: seq<nat>, q: seq<nat>, k: nat): Ownership
    requires k <= |p| == |q|
    decreases |p| - k
  {
    if k == |p| then Owner(None) else Combine(PairOwnership(s, mk, p, q, k), ScanPairs(s, mk, p, q, k + 1))
  }

  /** Begin and end markers alternate, each alone on its line, and at most one block is not foreign. */
  function Validate(s: string, mk: Markers): Ownership {
    var p, q := Positions(s, mk.begin), Positions(s, mk.end);
    if |p| != |q| then Malformed else ScanPairs(s, mk, p, q, 0)
  }

  lemma CombineAssociates(a: Ownership, b: Ownership, c: Ownership)
    ensures Combine(Combine(a, b), c) == Combine(a, Combine(b, c))
    ensures Combine(Owner(None), a) == a && Combine(a, Owner(None)) == a
  {
  }

  /** The loop over marker pairs decides exactly `Validate`. */
  method ValidateMarkers(content: string, mk: Markers) returns (r: Ownership)
    requires Sound(mk)
    ensures r == Validate(content, mk)
  {
    var starts := MarkerPositions(content, mk.begin);
    var ends := MarkerPositions(content, mk.end);
    if |starts| != |ends| {
      return Malformed;
    }
    var owned: Option<Region> := None;
    var k := 0;
    while k < |starts|
      invariant 0 <= k <= |starts|
      invariant Validate(content, mk) == Combine(Owner(owned), ScanPairs(content, mk, starts, ends, k))
    {
      hide Verdict, Positions;
      var pair := PairOwnership(content, mk, starts, ends, k);
      CombineAssociates(Owner(owned), pair, ScanPairs(content, mk, starts, ends, k + 1));
      if pair.Malformed? {
        return Malformed;
      }
      if pair.region.Some? {
        if owned.Some? {
          return Malformed;
        }
        owned := pair.region;
      }
      k := k + 1;
    }
    CombineAssociates(Owner(owned), Owner(None), Owner(None));
    return Owner(owned);
  }

  // The two edits.

  datatype UpsertAction = Created | Updated | Unchanged

  datatype Upserted = Upserted(content: string, action: UpsertAction)

  function NewlineFor(s: string): string {
    if HasCrlf(s) then "\r\n" else "\n"
  }

  function NormalizeBlock(block: string, newline: string): string {
    if newline == "\r\n" then Expand(Collapse(block)) else Collapse(block)
  }

  function EndsWithBreak(s: string): bool {
    s != "" && (s[|s| - 1] == '\n' || s[|s| - 1] == '\r')
  }

  function Separator(existing: string): string {
    var n := NewlineFor(existing);
    if EndsWithBreak(existing) then n + n else n + n + n
  }

  function Splice(existing: string, r: Region, block: string): string
    requires r.start <= r.end <= |existing|
  {
    existing[..r.start] + block + existing[r.end..]
  }

  /** Put the block into the file: replace the owned one, or append it after a separator. */
  function Upsert(existing: string, block: string, mk: Markers): Option<Upserted> {
    var v := Validate(existing, mk);
    if v.Malformed? then None
    else
      var normalized := NormalizeBlock(block, NewlineFor(existing));
      if v.region.None? then
        if existing == "" then Some(Upserted(normalized, Created))
        else Some(Upserted(existing + Separator(existing) + normalized, Created))
      else
        var r := v.region.value;
        if !(r.start <= r.end <= |existing|) then None
        else if existing[r.start..r.end] == normalized then Some(Upserted(existing, Unchanged))
        else Some(Upserted(Splice(existing, r, normalized), Updated))
  }

  datatype RemoveAction = Absent | Rewritten | Deleted

  datatype Removed = Removed(content: Option<string>, action: RemoveAction)

  /** Cut out the owned region and nothing else; a file that was only the block can be deleted. */
  function Remove(existing: string, mk: Markers): Option<Removed> {
    var v := Validate(existing, mk);
    if v.Malformed? then None
    else if v.region.None? then Some(Removed(Some(existing), Absent))
    else
      var r := v.region.value;
      if !(r.start <= r.end <= |existing|) then None
      else
        var content := Splice(existing, r, "");
        if content == "" then Some(Removed(None, Deleted)) else Some(Removed(Some(content), Rewritten))
  }

  lemma KiokukoMarkersAreSound()
    ensures Sound(KIOKUKO)
  {
    assert '<' !in NAME && '\n' !in NAME && '\r' !in NAME;
    assert "<" + "!-- BEGIN" == "<!-- BEGIN" && "<" + "!-- END" == "<!-- END";
    assert "!-- BEGIN"[4] == 'B' && "!-- END"[4] == 'E';
    MarkersAreSound("!-- BEGIN", "!-- END", NAME, 4);
  }

  lemma MarkersAreSound(begin: string, end: string, name: string, i: nat)
    requires i < |end| < |begin| && begin[i] != end[i]
    requires '<' !in begin && '\n' !in begin && '\r' !in begin
    requires '<' !in end && '\n' !in end && '\r' !in end
    requires '<' !in name && '\n' !in name && '\r' !in name
    ensures Sound(Markers("<" + begin + name, "<" + end + name))
  {
    MarkerIsPlain(begin, name);
    MarkerIsPlain(end, name);
    assert ("<" + begin + name)[i + 1] == begin[i] && ("<" + end + name)[i + 1] == end[i];
  }

  lemma MarkerIsPlain(head: string, name: string)
    requires '<' !in head && '\n' !in head && '\r' !in head
    requires '<' !in name && '\n' !in name && '\r' !in name
    ensures var m := ("<" + head) + name; Unbordered(m) && PlainMarker(m)
  {
  }
}
