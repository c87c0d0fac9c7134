/** What inserting and removing the managed block do to a file: idempotence, inverse, and frame. */
module ManagedBlockLaws {
  import opened Wrappers
  import opened MarkerText
  import opened ManagedBlock
  import opened ManagedBlockSeams
  import opened ManagedBlockShape
  import opened WellFormedBlocks

  /** The text before and after the owned region; all of it when nothing is owned. */
  function Outside(s: string, mk: Markers): (string, string) {
    var v := Validate(s, mk);
    if v.Owner? && v.region.Some? && v.region.value.start <= v.region.value.end <= |s|
    then (s[..v.region.value.start], s[v.region.value.end..]) else (s, "")
  }

  /** Text u is valid and owns exactly the given block, between the given outer texts. */
  ghost predicate Owns(u: string, mk: Markers, before: string, block: string, after: string) {
    && u == before + block + after
    && Validate(u, mk) == Owner(Some(Region(|before|, |before| + |block|)))
  }

  // Splicing a block between two lines.

  lemma SurroundedIsOwned(before: string, n: string, after: string, mk: Markers)
    requires Sound(mk)
    requires Validate(n, mk) == Owner(Some(Region(0, |n|))) && Balanced(n, mk) && HardEdges(n)
    requires EndsLine(before) && Balanced(before, mk) && Validate(before, mk) == Owner(None)
    requires StartsWithBreak(after) && Validate(after, mk) == Owner(None)
    ensures Owns(before + n + after, mk, before, n, after)
  {
    hide Validate, Balanced, Unbordered, Joined, StartsWithBreak, EndsLine;
    assert before + n + after == before + (n + after);
    JoinedBeforeBreak(n, after, mk);
    ValidateConcat(n, after, mk);
    JoinedAfterLine(before, n + after, mk);
    ValidateConcat(before, n + after, mk);
  }

  /** A valid text with an owned region, cut at it. */
  lemma Cut(s: string, mk: Markers, r: Region)
    requires Sound(mk) && Validate(s, mk) == Owner(Some(r))
    ensures r.start < r.end <= |s| && EndsLine(s[..r.start]) && StartsWithBreak(s[r.end..])
    ensures Balanced(s[..r.start], mk) && Validate(s[..r.start], mk) == Owner(None) && Validate(s[r.end..], mk) == Owner(None)
    ensures HardEdges(s[r.start..r.end])
  {
    hide Validate, Balanced, Unbordered, StartsWithBreak, EndsLine;
    SplitRegion(s, mk, r);
    var rest, n := s[r.start..], r.end - r.start;
    HeadRegion(rest, mk, n);
    assert rest[n..] == s[r.end..] && rest[0] == s[r.start] && rest[n - 1] == s[r.end - 1];
  }

  // Separators.

  lemma ShortHasNoMarkers(s: string, mk: Markers)
    requires Sound(mk) && forall c | c in s :: c == '\n' || c == '\r'
    ensures Balanced(s, mk) && Validate(s, mk) == Owner(None)
  {
    BreaksLack(s, mk.begin);
    BreaksLack(s, mk.end);
  }

  lemma BreaksLack(s: string, m: string)
    requires PlainMarker(m) && forall c | c in s :: c == '\n' || c == '\r'
    ensures Positions(s, m) == []
  {
    AbsentPositions(s, m);
    forall i: int
      ensures !OccursAt(s, m, i)
    {
      assert 0 <= i < |s| ==> s[i] in s;
      FirstLetter(s, m);
      assert m[0] in m;
    }
  }

  lemma SeparatorIsBreaks(existing: string)
    ensures forall c | c in Separator(existing) :: c == '\n' || c == '\r'
    ensures StartsWithBreak(Separator(existing)) && EndsLine(existing + Separator(existing))
    ensures !HasCrlf(existing) ==> Separator(existing)[0] == '\n' && '\r' !in Separator(existing)
  {
  }

  /** An unowned text followed by its separator is still unowned, and ends a line. */
  lemma SeparatedIsUnowned(existing: string, mk: Markers)
    requires Sound(mk) && Validate(existing, mk) == Owner(None)
    ensures var b := existing + Separator(existing); EndsLine(b) && Balanced(b, mk) && Validate(b, mk) == Owner(None)
  {
    var sep := Separator(existing);
    SeparatorIsBreaks(existing);
    hide Separator;
    ShortHasNoMarkers(sep, mk);
    JoinedBeforeBreak(existing, sep, mk);
    PositionsConcat(existing, sep, mk.begin);
    PositionsConcat(existing, sep, mk.end);
    hide Positions, Joined, Unbordered, StartsWithBreak, ScanPairs, EndsLine;
    ValidateConcat(existing, sep, mk);
  }

  // Newline style.

  lemma CrlfAt(a: string, b: string, i: int)
    requires 0 <= i < |a + b| - 1
    ensures ((a + b)[i] == '\r' && (a + b)[i + 1] == '\n')
            <==> (i < |a| - 1 && a[i] == '\r' && a[i + 1] == '\n')
                 || (i == |a| - 1 && a[i] == '\r' && b[0] == '\n')
                 || (i >= |a| && b[i - |a|] == '\r' && b[i - |a| + 1] == '\n')
  {
  }

  lemma HasCrlfConcat(a: string, b: string)
    ensures HasCrlf(a + b) <==> HasCrlf(a) || HasCrlf(b) || (a != "" && b != "" && a[|a| - 1] == '\r' && b[0] == '\n')
  {
    var s := a + b;
    if HasCrlf(s) {
      var i :| 0 <= i < |s| - 1 && s[i] == '\r' && s[i + 1] == '\n';
      CrlfAt(a, b, i);
      assert i >= |a| ==> b[i - |a|] == '\r';
    }
    if HasCrlf(a) {
      var i :| 0 <= i < |a| - 1 && a[i] == '\r' && a[i + 1] == '\n';
      CrlfAt(a, b, i);
    }
    if HasCrlf(b) {
      var i :| 0 <= i < |b| - 1 && b[i] == '\r' && b[i + 1] == '\n';
      assert s[i + |a|] == '\r' && s[i + |a| + 1] == '\n';
    }
    if a != "" && b != "" && a[|a| - 1] == '\r' && b[0] == '\n' {
      assert s[|a| - 1] == '\r' && s[|a| - 1 + 1] == '\n';
    }
  }

  lemma NoCrNoCrlf(s: string)
    requires '\r' !in s
    ensures !HasCrlf(s)
  {
  }

  lemma StyleAround(before: string, n: string, after: string)
    requires EndsLine(before) && HardEdges(n)
    ensures HasCrlf(before + n + after) <==> HasCrlf(before) || HasCrlf(n) || HasCrlf(after)
  {
    hide HasCrlf;
    HasCrlfConcat(before, n);
    HasCrlfConcat(before + n, after);
    assert (before + n)[|before + n| - 1] == n[|n| - 1];
  }

  /** What a normalised well-formed block is, for the newline style of a file. */
  ghost predicate Normal(n: string, existing: string, mk: Markers) {
    && Validate(n, mk) == Owner(Some(Region(0, |n|))) && Balanced(n, mk) && HardEdges(n)
    && (HasCrlf(n) <==> HasCrlf(existing))
  }

  lemma NormalForFile(existing: string, block: string, mk: Markers)
    requires Sound(mk) && WellFormed(block, mk)
    ensures Normal(NormalizeBlock(block, NewlineFor(existing)), existing, mk)
  {
    hide Validate, Balanced, HasCrlf, Sound, NormalizeBlock, HardEdges;
    NormalizedIsOwned(block, mk, NewlineFor(existing));
    NormalizedNewlines(block, mk);
    NoCrNoCrlf(block);
  }

  /** Replacing the owned region keeps the newline style of the file. */
  lemma StyleIsKept(existing: string, block: string, mk: Markers, r: Region)
    requires Sound(mk) && WellFormed(block, mk) && Validate(existing, mk) == Owner(Some(r))
    ensures r.start < r.end <= |existing|
    ensures var n := NormalizeBlock(block, NewlineFor(existing)); NewlineFor(Splice(existing, r, n)) == NewlineFor(existing)
  {
    hide Validate, Sound, Balanced, HasCrlf, NormalizeBlock, EndsLine, StartsWithBreak, HardEdges, WellFormed;
    Cut(existing, mk, r);
    var n := NormalizeBlock(block, NewlineFor(existing));
    NormalForFile(existing, block, mk);
    assert existing == existing[..r.start] + existing[r.start..r.end] + existing[r.end..];
    StyleAround(existing[..r.start], existing[r.start..r.end], existing[r.end..]);
    StyleAround(existing[..r.start], n, existing[r.end..]);
  }

  /** A file with no CRLF whose last character is a bare CR: the separator's LF would turn it into one. */
  predicate EndsInBareCr(s: string) {
    s != "" && s[|s| - 1] == '\r' && !HasCrlf(s)
  }

  /** Appending keeps the newline style unless the file ends in a bare CR. */
  lemma StyleOfCreated(existing: string, block: string, mk: Markers)
    requires Sound(mk) && WellFormed(block, mk) && existing != ""
    ensures var n := NormalizeBlock(block, NewlineFor(existing));
            HasCrlf(existing + Separator(existing) + n) <==> HasCrlf(existing) || EndsInBareCr(existing)
  {
    var n, sep := NormalizeBlock(block, NewlineFor(existing)), Separator(existing);
    hide Validate, Sound, Balanced, NormalizeBlock, StartsWithBreak, WellFormed, HardEdges;
    NormalForFile(existing, block, mk);
    SeparatorIsBreaks(existing);
    StyleAround(existing + sep, n, "");
    assert existing + sep + n + "" == existing + sep + n;
    HasCrlfConcat(existing, sep);
    if !HasCrlf(existing) {
      NoCrNoCrlf(sep);
    }
  }

  // What one insertion does.

  /** Insertion fails on malformed markers only; otherwise the file then owns exactly the normalised block, and
      every character outside it is as it was, after a separator if the block was appended. */
  lemma UpsertOwns(existing: string, block: string, mk: Markers)
    requires Sound(mk) && WellFormed(block, mk)
    ensures Upsert(existing, block, mk).None? <==> Validate(existing, mk).Malformed?
    ensures Upsert(existing, block, mk).Some? ==>
              var u := Upsert(existing, block, mk).value;
              var (before, after) := Outside(existing, mk);
              var appended := if u.action.Created? && existing != "" then Separator(existing) else "";
              && (u.action.Created? <==> Validate(existing, mk).region.None?)
              && Owns(u.content, mk, before + appended, NormalizeBlock(block, NewlineFor(existing)), after)
  {
    hide Validate, Sound, NormalizeBlock, NewlineFor, WellFormed, Owns, Separator;
    UpsertOfMalformed(existing, block, mk);
    var v := Validate(existing, mk);
    if v.Owner? && v.region.Some? {
      UpsertOwnsRegion(existing, block, mk, v.region.value);
      hide Upsert;
      assert existing[..v.region.value.start] + "" == existing[..v.region.value.start];
    } else if v.Owner? {
      hide Upsert;
      assert existing + "" == existing;
      UpsertOwnsNew(existing, block, mk);
    }
  }

  lemma UpsertOfMalformed(existing: string, block: string, mk: Markers)
    ensures Validate(existing, mk).Malformed? ==> Upsert(existing, block, mk).None?
  {
  }

  lemma UpsertOwnsRegion(existing: string, block: string, mk: Markers, r: Region)
    requires Sound(mk) && WellFormed(block, mk) && Validate(existing, mk) == Owner(Some(r))
    ensures r.start < r.end <= |existing|
    ensures Upsert(existing, block, mk).Some? && !Upsert(existing, block, mk).value.action.Created?
    ensures Owns(Upsert(existing, block, mk).value.content, mk, existing[..r.start],
                 NormalizeBlock(block, NewlineFor(existing)), existing[r.end..])
    ensures Upsert(existing, block, mk).value.content == Splice(existing, r, NormalizeBlock(block, NewlineFor(existing)))
  {
    hide Validate, Sound, Balanced, NormalizeBlock, EndsLine, StartsWithBreak, HardEdges, NewlineFor, WellFormed, Owns, HasCrlf;
    var n := NormalizeBlock(block, NewlineFor(existing));
    NormalForFile(existing, block, mk);
    Cut(existing, mk, r);
    SurroundedIsOwned(existing[..r.start], n, existing[r.end..], mk);
    assert existing == existing[..r.start] + existing[r.start..r.end] + existing[r.end..];
  }

  lemma UpsertOwnsNew(existing: string, block: string, mk: Markers)
    requires Sound(mk) && WellFormed(block, mk) && Validate(existing, mk) == Owner(None)
    ensures Upsert(existing, block, mk).Some? && Upsert(existing, block, mk).value.action.Created?
    ensures var n := NormalizeBlock(block, NewlineFor(existing));
            var sep := if existing == "" then "" else Separator(existing);
            Owns(Upsert(existing, block, mk).value.content, mk, existing + sep, n, "")
  {
    hide Validate, Sound, Balanced, NormalizeBlock, HardEdges, NewlineFor, Separator, WellFormed, HasCrlf, Owns;
    var n := NormalizeBlock(block, NewlineFor(existing));
    NormalForFile(existing, block, mk);
    SeparatedIsUnowned(existing, mk);
    ShortHasNoMarkers("", mk);
    var before := existing + (if existing == "" then "" else Separator(existing));
    assert existing == "" ==> before == "";
    SurroundedIsOwned(before, n, "", mk);
    assert before + n + "" == if existing == "" then n else existing + Separator(existing) + n;
  }

  // Insertion twice.

  lemma UpsertOfOwner(u: string, mk: Markers, before: string, n: string, after: string, block: string)
    requires Owns(u, mk, before, n, after)
    ensures Upsert(u, block, mk).Some?
    ensures Upsert(u, block, mk).value.action == if NormalizeBlock(block, NewlineFor(u)) == n then Unchanged else Updated
  {
  }

  /** Inserting again changes nothing, except that a file which ended in a bare CR is rewritten once more. */
  lemma UpsertTwice(existing: string, block: string, mk: Markers)
    requires Sound(mk) && WellFormed(block, mk) && !Validate(existing, mk).Malformed?
    ensures Upsert(existing, block, mk).Some?
    ensures var again := Upsert(Upsert(existing, block, mk).value.content, block, mk);
            var exception := Validate(existing, mk).region.None? && EndsInBareCr(existing);
            again.Some? && again.value.action == if exception then Updated else Unchanged
  {
    var n := NormalizeBlock(block, NewlineFor(existing));
    NormalizedNewlines(block, mk);
    if Validate(existing, mk).region.Some? {
      var r := Validate(existing, mk).region.value;
      UpsertOwnsRegion(existing, block, mk, r);
      StyleIsKept(existing, block, mk, r);
      hide Validate, NormalizeBlock, Upsert, NewlineFor, Sound, WellFormed;
      var u := Upsert(existing, block, mk).value.content;
      UpsertOfOwner(u, mk, existing[..r.start], n, existing[r.end..], block);
    } else {
      UpsertOwnsNew(existing, block, mk);
      hide Validate, NormalizeBlock, Sound, WellFormed;
      var u := Upsert(existing, block, mk).value.content;
      if existing == "" {
        NoCrNoCrlf(block);
      } else {
        StyleOfCreated(existing, block, mk);
      }
      var sep := if existing == "" then "" else Separator(existing);
      UpsertOfOwner(u, mk, existing + sep, n, "", block);
    }
  }

  // A file that shows the exception.

  lemma EndIsNotInBegin(mk: Markers)
    requires Sound(mk) && mk.end[0] == mk.begin[0]
    ensures Positions(mk.begin, mk.end) == []
  {
    AbsentPositions(mk.begin, mk.end);
    FirstLetter(mk.begin, mk.end);
    assert mk.begin[0..|mk.end|] == mk.begin[..|mk.end|];
    forall i: int
      ensures !OccursAt(mk.begin, mk.end, i)
    {
      assert OccursAt(mk.begin, mk.end, i) ==> i == 0;
    }
  }

  /** The two markers around one empty line. */
  lemma SmallestBlock(mk: Markers)
    requires Sound(mk) && mk.end[0] == mk.begin[0]
    ensures WellFormed(Framed(mk, "\n"), mk)
  {
    BreaksLack("\n", mk.begin);
    BreaksLack("\n", mk.end);
    EndIsNotInBegin(mk);
    CollapseWithoutCr("\n");
    assert |DSH_PREFIX| > 1;
    hide Positions, Validate, Collapse;
    FramedIsOwned(mk, "\n");
  }

  lemma KiokukoFirstLetters()
    ensures KIOKUKO.begin[0] == KIOKUKO.end[0]
  {
  }

  /** A file that is one bare CR: the first insertion appends the block, the second rewrites it. */
  lemma BareCrIsRewritten()
    ensures var block := Framed(KIOKUKO, "\n");
            var once := Upsert("\r", block, KIOKUKO);
            && WellFormed(block, KIOKUKO) && once.Some? && once.value.action.Created?
            && var again := Upsert(once.value.content, block, KIOKUKO);
               again.Some? && again.value.action.Updated?
  {
    hide Sound, WellFormed, NormalizeBlock, Validate, Framed, Upsert, Separator, NewlineFor;
    KiokukoMarkersAreSound();
    KiokukoFirstLetters();
    var mk := KIOKUKO;
    SmallestBlock(mk);
    ShortHasNoMarkers("\r", mk);
    UpsertOwnsNew("\r", Framed(mk, "\n"), mk);
    UpsertTwice("\r", Framed(mk, "\n"), mk);
  }

  /** From the second insertion on, inserting the same block changes nothing, for every file. */
  lemma UpsertSettles(existing: string, block: string, mk: Markers)
    requires Sound(mk) && WellFormed(block, mk) && !Validate(existing, mk).Malformed?
    ensures Upsert(existing, block, mk).Some?
    ensures var twice := Upsert(Upsert(existing, block, mk).value.content, block, mk);
            twice.Some?
            && Upsert(twice.value.content, block, mk) == Some(Upserted(twice.value.content, Unchanged))
  {
    hide Validate, Sound, WellFormed, Upsert, EndsInBareCr;
    UpsertOwns(existing, block, mk);
    var once := Upsert(existing, block, mk).value.content;
    UpsertTwice(existing, block, mk);
    UpsertTwice(once, block, mk);
    var twice := Upsert(once, block, mk).value.content;
    UnchangedKeeps(twice, block, mk);
  }

  lemma UnchangedKeeps(existing: string, block: string, mk: Markers)
    ensures var u := Upsert(existing, block, mk);
            u.Some? && u.value.action.Unchanged? ==> u.value.content == existing
  {
  }

  // Removal.

  lemma RemoveOfOwner(u: string, mk: Markers, before: string, n: string, after: string)
    requires Owns(u, mk, before, n, after)
    ensures Remove(u, mk) == Some(if before + after == "" then Removed(None, Deleted)
                                  else Removed(Some(before + after), Rewritten))
  {
    hide Validate;
    assert u[..|before|] == before && u[|before| + |n|..] == after;
    assert before + "" + after == before + after;
  }

  /** Removing after an insertion is removing the old block; a block that was inserted anew leaves only its separator. */
  lemma RemoveAfterUpsert(existing: string, block: string, mk: Markers)
    requires Sound(mk) && WellFormed(block, mk) && !Validate(existing, mk).Malformed?
    ensures Upsert(existing, block, mk).Some?
    ensures var u := Upsert(existing, block, mk).value.content;
            Remove(u, mk) == if Validate(existing, mk).region.Some? then Remove(existing, mk)
                             else if existing == "" then Some(Removed(None, Deleted))
                             else Some(Removed(Some(existing + Separator(existing)), Rewritten))
  {
    hide NormalizeBlock, Upsert, NewlineFor, Sound, WellFormed, Validate, Remove, Separator;
    if Validate(existing, mk).region.Some? {
      RemoveReplaced(existing, block, mk, Validate(existing, mk).region.value);
    } else {
      RemoveAppended(existing, block, mk);
    }
  }

  lemma RemoveReplaced(existing: string, block: string, mk: Markers, r: Region)
    requires Sound(mk) && WellFormed(block, mk) && Validate(existing, mk) == Owner(Some(r))
    ensures Upsert(existing, block, mk).Some? && Remove(Upsert(existing, block, mk).value.content, mk) == Remove(existing, mk)
  {
    hide NormalizeBlock, Upsert, NewlineFor, Sound, WellFormed, Validate;
    UpsertOwnsRegion(existing, block, mk, r);
    RemoveOfOwner(Upsert(existing, block, mk).value.content, mk, existing[..r.start],
                  NormalizeBlock(block, NewlineFor(existing)), existing[r.end..]);
    assert existing[..r.start] + "" + existing[r.end..] == existing[..r.start] + existing[r.end..];
  }

  lemma RemoveAppended(existing: string, block: string, mk: Markers)
    requires Sound(mk) && WellFormed(block, mk) && Validate(existing, mk) == Owner(None)
    ensures Upsert(existing, block, mk).Some?
    ensures Remove(Upsert(existing, block, mk).value.content, mk)
            == if existing == "" then Some(Removed(None, Deleted))
               else Some(Removed(Some(existing + Separator(existing)), Rewritten))
  {
    hide NormalizeBlock, Upsert, NewlineFor, Sound, WellFormed, Validate, Remove, Separator;
    UpsertOwnsNew(existing, block, mk);
    var sep := if existing == "" then "" else Separator(existing);
    RemoveOfOwner(Upsert(existing, block, mk).value.content, mk, existing + sep, NormalizeBlock(block, NewlineFor(existing)), "");
    assert existing + sep + "" == existing + sep;
    SeparatorIsBreaks(existing);
  }

  lemma RemoveOfMalformed(s: string, mk: Markers)
    ensures Validate(s, mk).Malformed? ==> Remove(s, mk).None?
  {
    hide Validate;
  }

  lemma RemoveOfUnowned(s: string, mk: Markers)
    requires Validate(s, mk) == Owner(None)
    ensures Remove(s, mk) == Some(Removed(Some(s), Absent)) && Outside(s, mk) == (s, "")
  {
    hide Validate;
  }

  /** What stands around the owned region owns nothing. */
  lemma RestIsUnowned(existing: string, mk: Markers, r: Region)
    requires Sound(mk) && Validate(existing, mk) == Owner(Some(r))
    ensures r.start < r.end <= |existing| && Validate(existing[..r.start] + existing[r.end..], mk) == Owner(None)
  {
    hide Sound, Validate, Balanced, Joined, EndsLine, StartsWithBreak, HardEdges;
    Cut(existing, mk, r);
    JoinedAfterLine(existing[..r.start], existing[r.end..], mk);
    ValidateConcat(existing[..r.start], existing[r.end..], mk);
  }

  lemma OwnsItsRegion(existing: string, mk: Markers, r: Region)
    requires Validate(existing, mk) == Owner(Some(r)) && r.start < r.end <= |existing|
    ensures Owns(existing, mk, existing[..r.start], existing[r.start..r.end], existing[r.end..])
    ensures Outside(existing, mk) == (existing[..r.start], existing[r.end..])
  {
    hide Validate;
    assert existing == existing[..r.start] + existing[r.start..r.end] + existing[r.end..];
  }

  /** After a removal nothing is owned: removing again finds no block and keeps the text. */
  lemma RemoveTwice(existing: string, mk: Markers)
    requires Sound(mk)
    ensures Remove(existing, mk).None? <==> Validate(existing, mk).Malformed?
    ensures Remove(existing, mk).Some? && Remove(existing, mk).value.content.Some? ==>
              var rest := Remove(existing, mk).value.content.value;
              Remove(rest, mk) == Some(Removed(Some(rest), Absent))
              && Outside(existing, mk).0 + Outside(existing, mk).1 == rest
  {
    var v := Validate(existing, mk);
    RemoveOfMalformed(existing, mk);
    hide Sound, Validate, Remove, Outside, Owns;
    if v.Owner? {
      if v.region.Some? {
        var r := v.region.value;
        RestIsUnowned(existing, mk, r);
        OwnsItsRegion(existing, mk, r);
        RemoveOfOwner(existing, mk, existing[..r.start], existing[r.start..r.end], existing[r.end..]);
        RemoveOfUnowned(existing[..r.start] + existing[r.end..], mk);
      } else {
        RemoveOfUnowned(existing, mk);
        assert existing + "" == existing;
      }
    }
  }
}
