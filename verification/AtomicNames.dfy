/** Names that a conditional file mutation gives to its artifacts, and the two patterns that
    recognise an interrupted mutation from a directory listing. */
module AtomicNames {
  import opened Wrappers

  datatype QuarantineKind = Deleted | Previous | Rollback

  function KindText(kind: QuarantineKind): string {
    match kind
    case Deleted => "deleted"
    case Previous => "previous"
    case Rollback => "rollback"
  }

  predicate IsHexDigit(c: char) {
    '0' <= c <= '9' || 'a' <= c <= 'f' || 'A' <= c <= 'F'
  }

  /** A version 4 UUID in text form; the patterns ignore letter case. */
  predicate IsUuid(u: string) {
    && |u| == 36
    && u[8] == '-' && u[13] == '-' && u[18] == '-' && u[23] == '-'
    && u[14] == '4'
    && u[19] in "89abAB"
    && forall i | 0 <= i < 36 && i !in {8, 13, 18, 23} :: IsHexDigit(u[i])
  }

  type Uuid = u: string | IsUuid(u) witness "00000000-0000-4000-8000-000000000000"

  // Names that the mutations create.

  function TemporaryName(base: string, u: string): string {
    "." + base + "." + u + ".tmp"
  }

  function QuarantineName(base: string, u: string, kind: QuarantineKind): string {
    "." + base + "." + u + "." + KindText(kind)
  }

  function DisposalName(name: string, u: string): string {
    "." + name + "." + u + ".cleanup"
  }

  // The recogniser.

  predicate SameLetter(c: char, lower: char) {
    c == lower || ('a' <= lower <= 'z' && c as int == lower as int - 32)
  }

  predicate IsCleanupWord(s: string) {
    |s| == 7 && forall i | 0 <= i < 7 :: SameLetter(s[i], "cleanup"[i])
  }

  function ActivePrefix(base: string): string { "." + base + "." }

  function CleanupPrefix(base: string): string { ".." + base + "." }

  /** The kind written exactly as one of the three words; any other letter case is refused by the caller. */
  function ParseKind(s: string): (r: Option<QuarantineKind>)
    ensures r.Some? ==> KindText(r.value) == s
  {
    if s == "deleted" then Some(Deleted)
    else if s == "previous" then Some(Previous)
    else if s == "rollback" then Some(Rollback)
    else None
  }

  /** `uuid.kind` and nothing else. */
  function ParseQuarantine(s: string): Option<QuarantineKind> {
    if |s| >= 37 && IsUuid(s[..36]) && s[36] == '.' then ParseKind(s[37..]) else None
  }

  /** `uuid.kind.uuid.cleanup` and nothing else. */
  function ParseCleanup(s: string): Option<QuarantineKind> {
    if |s| >= 45 && ParseQuarantine(s[..|s| - 45]).Some?
       && s[|s| - 45] == '.' && IsUuid(s[|s| - 44..|s| - 8]) && s[|s| - 8] == '.'
       && IsCleanupWord(s[|s| - 7..])
    then ParseQuarantine(s[..|s| - 45]) else None
  }

  /** Only a name outside the first prefix is tried against the second one. */
  function Recognise(base: string, name: string): Option<QuarantineKind> {
    if ActivePrefix(base) <= name then ParseQuarantine(name[|ActivePrefix(base)|..])
    else if CleanupPrefix(base) <= name then ParseCleanup(name[|CleanupPrefix(base)|..])
    else None
  }

  ghost predicate AllDots(base: string) {
    forall i | 0 <= i < |base| :: base[i] == '.'
  }

  /** A word that commutes with a single letter is a power of that letter. */
  lemma {:induction false} CommutingWord(w: string, k: nat)
    requires k < |w|
    requires "." + w == w + "."
    ensures w[k] == '.'
  {
    assert ("." + w)[k] == (w + ".")[k];
    if k > 0 {
      CommutingWord(w, k - 1);
      assert ("." + w)[k] == w[k - 1];
    }
  }

  /** The two prefixes collide on one name exactly for basenames made of dots only. */
  lemma PrefixesCollide(base: string, rest: string)
    ensures ActivePrefix(base) <= CleanupPrefix(base) + rest <==> AllDots(base)
  {
    var name := CleanupPrefix(base) + rest;
    if ActivePrefix(base) <= name {
      forall i | 0 <= i < |base| + 1
        ensures (base + ".")[i] == ("." + base)[i]
      {
        assert ActivePrefix(base)[i + 1] == (base + ".")[i];
        assert ActivePrefix(base)[i + 1] == name[i + 1];
        assert name[i + 1] == ("." + base)[i];
      }
      assert "." + base == base + ".";
      forall i | 0 <= i < |base|
        ensures base[i] == '.'
      {
        CommutingWord(base, i);
      }
    }
    if AllDots(base) {
      assert forall i | 0 <= i < |base| + 2 :: name[i] == '.';
      assert forall i | 0 <= i < |base| + 2 :: ActivePrefix(base)[i] == '.';
      assert ActivePrefix(base) == name[..|base| + 2];
    }
  }

  lemma ParseQuarantineText(u: Uuid, kind: QuarantineKind)
    ensures ParseQuarantine(u + "." + KindText(kind)) == Some(kind)
  {
  }

  lemma ParseCleanupText(u: Uuid, kind: QuarantineKind, v: Uuid)
    ensures ParseCleanup(u + "." + KindText(kind) + "." + v + ".cleanup") == Some(kind)
  {
    var inner := u + "." + KindText(kind);
    var s := inner + "." + v + ".cleanup";
    assert |s| == |inner| + 45;
    assert s[..|s| - 45] == inner;
    assert s[|s| - 44..|s| - 8] == v;
    assert s[|s| - 7..] == "cleanup";
    ParseQuarantineText(u, kind);
  }

  /** A freshly quarantined artifact is always recognised. */
  lemma QuarantineRecognised(base: string, u: Uuid, kind: QuarantineKind)
    ensures Recognise(base, QuarantineName(base, u, kind)) == Some(kind)
  {
  }

  function CleanupText(u: string, kind: QuarantineKind, v: string): string {
    u + "." + KindText(kind) + "." + v + ".cleanup"
  }

  lemma DisposalSpelling(base: string, u: string, kind: QuarantineKind, v: string)
    ensures DisposalName(QuarantineName(base, u, kind), v) == CleanupPrefix(base) + CleanupText(u, kind, v)
  {
  }

  lemma DotIsNotUuid(base: string, rest: string)
    requires AllDots(base)
    requires ActivePrefix(base) <= CleanupPrefix(base) + rest
    ensures ParseQuarantine((CleanupPrefix(base) + rest)[|ActivePrefix(base)|..]) == None
  {
    var name := CleanupPrefix(base) + rest;
    var tail := name[|base| + 2..];
    assert tail[0] == name[|base| + 2] == '.';
    if |tail| >= 36 {
      assert tail[..36][0] == '.';
      assert !IsHexDigit('.');
    }
  }

  /** After the cleanup rename it is recognised, with its kind, exactly when the basename is not made
      of dots only: such a basename makes the first prefix claim the name and its pattern refuse it. */
  lemma DisposedQuarantineRecognised(base: string, u: Uuid, kind: QuarantineKind, v: Uuid)
    ensures Recognise(base, DisposalName(QuarantineName(base, u, kind), v))
            == if AllDots(base) then None else Some(kind)
  {
    var rest := CleanupText(u, kind, v);
    var name := CleanupPrefix(base) + rest;
    DisposalSpelling(base, u, kind, v);
    PrefixesCollide(base, rest);
    if AllDots(base) {
      DotIsNotUuid(base, rest);
    } else {
      assert name[|CleanupPrefix(base)|..] == rest;
      ParseCleanupText(u, kind, v);
    }
  }

  /** A basename that shows the exception: three dots. Its quarantine is recognised until the cleanup rename. */
  lemma DotsAreNotRecognised(u: Uuid, kind: QuarantineKind, v: Uuid)
    ensures Recognise("...", QuarantineName("...", u, kind)) == Some(kind)
    ensures Recognise("...", DisposalName(QuarantineName("...", u, kind), v)) == None
  {
    assert AllDots("...");
    hide Recognise, QuarantineName, DisposalName;
    QuarantineRecognised("...", u, kind);
    DisposedQuarantineRecognised("...", u, kind, v);
  }

  lemma ParsedQuarantine(s: string)
    requires ParseQuarantine(s).Some?
    ensures exists u: Uuid :: s == u + "." + KindText(ParseQuarantine(s).value)
  {
    var u: Uuid := s[..36];
    assert s == u + "." + s[37..];
  }

  lemma ParsedCleanup(s: string)
    requires ParseCleanup(s).Some?
    ensures exists u: Uuid, v: Uuid, word ::
              && IsCleanupWord(word)
              && s == u + "." + KindText(ParseCleanup(s).value) + "." + v + "." + word
  {
    var n := |s|;
    var head := s[..n - 45];
    ParsedQuarantine(head);
    var u: Uuid :| head == u + "." + KindText(ParseQuarantine(head).value);
    var v: Uuid := s[n - 44..n - 8];
    var word := s[n - 7..];
    assert s == head + "." + v + "." + word;
  }

  ghost predicate SpellsQuarantine(base: string, kind: QuarantineKind, name: string) {
    exists u: Uuid :: name == QuarantineName(base, u, kind)
  }

  ghost predicate SpellsDisposal(base: string, kind: QuarantineKind, name: string) {
    exists u: Uuid, v: Uuid, word ::
      IsCleanupWord(word) && name == "." + QuarantineName(base, u, kind) + "." + v + "." + word
  }

  lemma ActiveSpelling(base: string, s: string)
    requires ParseQuarantine(s).Some?
    ensures SpellsQuarantine(base, ParseQuarantine(s).value, ActivePrefix(base) + s)
  {
    var kind := ParseQuarantine(s).value;
    ParsedQuarantine(s);
    var u: Uuid :| s == u + "." + KindText(kind);
    assert ActivePrefix(base) + s == QuarantineName(base, u, kind);
  }

  lemma DisposedSpelling(base: string, u: string, kind: QuarantineKind, v: string, word: string)
    ensures CleanupPrefix(base) + (u + "." + KindText(kind) + "." + v + "." + word)
            == "." + QuarantineName(base, u, kind) + "." + v + "." + word
  {
    hide KindText;
    var tail := "." + v + "." + word;
    assert u + "." + KindText(kind) + "." + v + "." + word == u + "." + KindText(kind) + tail;
    assert "." + QuarantineName(base, u, kind) + "." + v + "." + word == "." + QuarantineName(base, u, kind) + tail;
  }

  lemma CleanupSpelling(base: string, s: string)
    requires ParseCleanup(s).Some?
    ensures SpellsDisposal(base, ParseCleanup(s).value, CleanupPrefix(base) + s)
  {
    var kind := ParseCleanup(s).value;
    ParsedCleanup(s);
    var u: Uuid, v: Uuid, word :| IsCleanupWord(word) && s == u + "." + KindText(kind) + "." + v + "." + word;
    DisposedSpelling(base, u, kind, v, word);
  }

  /** Nothing else is recognised: a recognised name spells this basename and a kind the mutations write. */
  lemma RecognisedNames(base: string, name: string)
    requires Recognise(base, name).Some?
    ensures || SpellsQuarantine(base, Recognise(base, name).value, name)
            || SpellsDisposal(base, Recognise(base, name).value, name)
  {
    if ActivePrefix(base) <= name {
      var s := name[|ActivePrefix(base)|..];
      assert name == ActivePrefix(base) + s;
      ActiveSpelling(base, s);
    } else {
      var s := name[|CleanupPrefix(base)|..];
      assert name == CleanupPrefix(base) + s;
      CleanupSpelling(base, s);
    }
  }

  /** Every created name is longer than the name it is derived from. */
  lemma CreatedNamesAreLonger(base: string, u: string, kind: QuarantineKind)
    ensures |QuarantineName(base, u, kind)| > |base|
    ensures |TemporaryName(base, u)| > |base|
    ensures |DisposalName(base, u)| > |base|
  {
  }

  lemma TemporaryNotRecognised(base: string, u: Uuid)
    ensures Recognise(base, TemporaryName(base, u)) == None
  {
  }
}
