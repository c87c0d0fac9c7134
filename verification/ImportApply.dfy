/** The import transaction: every statement of a planned import succeeds, and together they write the archive. */
module ImportApply {
  import opened Wrappers
  import opened Supersession
  import opened ImportTables
  import opened ImportStore

  // The first conflict.

  lemma {:induction false} FirstNone<T>(items: seq<T>, check: T -> Option<Conflict>)
    ensures First(items, check).None? <==> forall i | 0 <= i < |items| :: check(items[i]).None?
  {
    if items != [] {
      FirstNone(items[..|items| - 1], check);
      assert forall i | 0 <= i < |items| - 1 :: items[..|items| - 1][i] == items[i];
    }
  }

  /** Everything stored under an archive identity is what the archive holds, and no new entry has stored content. */
  ghost predicate Compatible(t: Tables, a: Archive, workspace: string) {
    && (forall i | 0 <= i < |a.entries| :: EntryFits(t, a.entries[i], workspace))
    && (forall i | 0 <= i < |a.links| :: LinkFits(t, a.links[i]))
    && (forall i | 0 <= i < |a.audit| :: AuditFits(t, a.audit[i], workspace))
  }

  ghost predicate EntryFits(t: Tables, e: Record, workspace: string) {
    if e.id in t.entries then ReadEntry(t, workspace, e.id) == Some(e)
    else forall k | k in t.revisions :: t.revisions[k] != RevisionRow(workspace, e.content)
  }

  ghost predicate LinkFits(t: Tables, l: Link) {
    l.key in t.links ==> t.links[l.key] == l.row
  }

  ghost predicate AuditFits(t: Tables, e: AuditEvent, workspace: string) {
    e.eventId in t.audit ==> t.audit[e.eventId] == AuditRowOf(e, workspace)
  }

  /** Planning succeeds exactly on compatible archives. */
  lemma PlanSucceedsIffCompatible(t: Tables, a: Archive, workspace: string)
    ensures PlanConflict(t, a, workspace).None? <==> Compatible(t, a, workspace)
  {
    FirstNone(a.entries, (e: Record) => Collision(t, e, workspace));
    FirstNone(a.entries, (e: Record) => Mismatch(t, e, workspace));
    FirstNone(a.links, (l: Link) => LinkMismatch(t, l));
    FirstNone(a.audit, (e: AuditEvent) => AuditMismatch(t, e, workspace));
    forall i | 0 <= i < |a.entries|
      ensures EntryFits(t, a.entries[i], workspace)
              <==> Collision(t, a.entries[i], workspace).None? && Mismatch(t, a.entries[i], workspace).None?
    {
    }
  }

  // Which conflict is reported.

  lemma {:induction false} FirstIsFirst<T>(items: seq<T>, check: T -> Option<Conflict>) returns (i: nat)
    requires First(items, check).Some?
    ensures i < |items| && check(items[i]) == First(items, check) && forall j | 0 <= j < i :: check(items[j]).None?
  {
    var n := |items| - 1;
    if First(items[..n], check).Some? {
      i := FirstIsFirst(items[..n], check);
      assert forall j | 0 <= j <= i :: items[..n][j] == items[j];
    } else {
      i := n;
      FirstNone(items[..n], check);
      assert forall j | 0 <= j < n :: items[..n][j] == items[j];
    }
  }

  /** The content that is stored as current for an entry. */
  function StoredContent(t: Tables, id: Id): Option<Content>
    requires id in t.entries
  {
    var key := RevisionKey(id, t.entries[id].currentRevision);
    if key in t.revisions then Some(t.revisions[key].content) else None
  }

  /** An entry collides when its identity is stored in another workspace or with other content, or when its content is stored
      under another identity. */
  ghost predicate CollidesAs(t: Tables, e: Record, workspace: string, c: Conflict) {
    match c
    case OtherWorkspace(id) => id == e.id && id in t.entries && t.entries[id].workspace != workspace
    case DifferentContent(id) =>
      id == e.id && id in t.entries && t.entries[id].workspace == workspace && StoredContent(t, id) != Some(e.content)
    case ContentOfAnotherEntry => e.id !in t.entries && exists k | k in t.revisions :: t.revisions[k] == RevisionRow(workspace, e.content)
    case _ => false
  }

  lemma CollisionMeans(t: Tables, e: Record, workspace: string)
    requires EntriesConsistent(t) && RevisionsConsistent(t)
    ensures forall c :: Collision(t, e, workspace) == Some(c) <==> CollidesAs(t, e, workspace, c)
  {
  }

  ghost predicate Collides(t: Tables, e: Record, workspace: string) {
    exists c :: CollidesAs(t, e, workspace, c)
  }

  ghost predicate FirstCollision(t: Tables, es: seq<Record>, workspace: string, c: Conflict) {
    exists i :: && 0 <= i < |es| && CollidesAs(t, es[i], workspace, c)
                && forall j | 0 <= j < i :: !Collides(t, es[j], workspace)
  }

  ghost predicate FirstMisfit(t: Tables, es: seq<Record>, workspace: string, c: Conflict) {
    exists i :: && 0 <= i < |es| && !EntryFits(t, es[i], workspace) && c == DifferentMetadata(es[i].id)
                && forall j | 0 <= j < i :: EntryFits(t, es[j], workspace)
  }

  ghost predicate FirstOtherEvent(t: Tables, es: seq<AuditEvent>, workspace: string, c: Conflict) {
    exists i :: && 0 <= i < |es| && !AuditFits(t, es[i], workspace) && c == AuditConflict(es[i].eventId)
                && forall j | 0 <= j < i :: AuditFits(t, es[j], workspace)
  }

  /** The conflict comes from the first line of its kind that has one; entries that collide go before entries that differ, and
      these before links and audit events. */
  ghost predicate Reports(t: Tables, a: Archive, workspace: string, c: Conflict) {
    if exists i :: 0 <= i < |a.entries| && Collides(t, a.entries[i], workspace) then FirstCollision(t, a.entries, workspace, c)
    else if exists i :: 0 <= i < |a.entries| && !EntryFits(t, a.entries[i], workspace) then FirstMisfit(t, a.entries, workspace, c)
    else if exists i :: 0 <= i < |a.links| && !LinkFits(t, a.links[i]) then c == LinkConflict
    else FirstOtherEvent(t, a.audit, workspace, c)
  }

  lemma CollisionsInOrder(t: Tables, es: seq<Record>, workspace: string)
    requires EntriesConsistent(t) && RevisionsConsistent(t)
    ensures var first := First(es, (e: Record) => Collision(t, e, workspace));
            && (first.Some? <==> exists i :: 0 <= i < |es| && Collides(t, es[i], workspace))
            && (first.Some? ==> FirstCollision(t, es, workspace, first.value))
  {
    var check := (e: Record) => Collision(t, e, workspace);
    FirstNone(es, check);
    forall i | 0 <= i < |es|
      ensures forall c :: Collision(t, es[i], workspace) == Some(c) <==> CollidesAs(t, es[i], workspace, c)
      ensures Collision(t, es[i], workspace).None? <==> !Collides(t, es[i], workspace)
    {
      CollisionMeans(t, es[i], workspace);
      hide Collision, CollidesAs;
      if Collision(t, es[i], workspace).Some? {
        assert CollidesAs(t, es[i], workspace, Collision(t, es[i], workspace).value);
      }
    }
    hide Collision, CollidesAs, Collides, First;
    if First(es, check).Some? {
      var i := FirstIsFirst(es, check);
    }
  }

  lemma MisfitsInOrder(t: Tables, es: seq<Record>, workspace: string)
    requires EntriesConsistent(t) && RevisionsConsistent(t) && forall i | 0 <= i < |es| :: !Collides(t, es[i], workspace)
    ensures var first := First(es, (e: Record) => Mismatch(t, e, workspace));
            && (first.Some? <==> exists i :: 0 <= i < |es| && !EntryFits(t, es[i], workspace))
            && (first.Some? ==> FirstMisfit(t, es, workspace, first.value))
  {
    var check := (e: Record) => Mismatch(t, e, workspace);
    FirstNone(es, check);
    forall i | 0 <= i < |es|
      ensures Mismatch(t, es[i], workspace)
              == if EntryFits(t, es[i], workspace) then None else Some(DifferentMetadata(es[i].id))
    {
      MismatchMeans(t, es[i], workspace);
    }
    hide Mismatch, EntryFits, Collides, First;
    if First(es, check).Some? {
      var i := FirstIsFirst(es, check);
    }
  }

  lemma MismatchMeans(t: Tables, e: Record, workspace: string)
    requires EntriesConsistent(t) && RevisionsConsistent(t) && !Collides(t, e, workspace)
    ensures Mismatch(t, e, workspace) == if EntryFits(t, e, workspace) then None else Some(DifferentMetadata(e.id))
  {
    CollisionMeans(t, e, workspace);
    if e.id !in t.entries {
      assert !CollidesAs(t, e, workspace, ContentOfAnotherEntry);
    }
  }

  lemma EventsInOrder(t: Tables, es: seq<AuditEvent>, workspace: string)
    ensures var first := First(es, (e: AuditEvent) => AuditMismatch(t, e, workspace));
            first.Some? ==> FirstOtherEvent(t, es, workspace, first.value)
  {
    var check := (e: AuditEvent) => AuditMismatch(t, e, workspace);
    if First(es, check).Some? {
      var i := FirstIsFirst(es, check);
    }
  }

  lemma LinksInOrder(t: Tables, ls: seq<Link>)
    ensures var first := First(ls, (l: Link) => LinkMismatch(t, l));
            && (first.Some? <==> exists i :: 0 <= i < |ls| && !LinkFits(t, ls[i]))
            && (first.Some? ==> first.value == LinkConflict)
  {
    var check := (l: Link) => LinkMismatch(t, l);
    FirstNone(ls, check);
    if First(ls, check).Some? {
      var i := FirstIsFirst(ls, check);
    }
  }

  /** A refused import names the first conflict, in this order. */
  lemma ConflictIsFirst(t: Tables, a: Archive, workspace: string)
    requires Consistent(t)
    ensures forall c | PlanConflict(t, a, workspace) == Some(c) :: Reports(t, a, workspace, c)
  {
    CollisionsInOrder(t, a.entries, workspace);
    if First(a.entries, (e: Record) => Collision(t, e, workspace)).None? {
      MisfitsInOrder(t, a.entries, workspace);
    }
    LinksInOrder(t, a.links);
    EventsInOrder(t, a.audit, workspace);
    hide Collision, Mismatch, LinkMismatch, AuditMismatch, Collides, FirstCollision, FirstMisfit, FirstOtherEvent, EntryFits,
         LinkFits, First, Consistent;
  }

  // What is new.

  /** Entries that the tables do not hold, under distinct identities and contents. */
  ghost predicate Fresh(t: Tables, es: seq<Record>, workspace: string) {
    && DistinctEntries(es)
    && forall i | 0 <= i < |es| :: FreshEntry(t, es[i], workspace)
  }

  ghost predicate FreshEntry(t: Tables, e: Record, workspace: string) {
    ValidEntry(e, workspace) && e.id !in t.entries && !HasContent(t, RevisionRow(workspace, e.content))
  }

  lemma {:induction false} NewEntriesAreMembers(t: Tables, es: seq<Record>)
    ensures forall e :: e in NewEntries(t, es) <==> e in es && e.id !in t.entries
  {
    if es != [] {
      var n := |es| - 1;
      NewEntriesAreMembers(t, es[..n]);
      assert es == es[..n] + [es[n]];
    }
  }

  lemma {:induction false} NewEntriesAreDistinct(t: Tables, es: seq<Record>)
    requires DistinctEntries(es)
    ensures DistinctEntries(NewEntries(t, es))
  {
    if es != [] {
      var n := |es| - 1;
      var rest := NewEntries(t, es[..n]);
      NewEntriesAreDistinct(t, es[..n]);
      NewEntriesAreMembers(t, es[..n]);
      forall i | 0 <= i < |rest|
        ensures rest[i].id != es[n].id && rest[i].content != es[n].content
      {
        assert rest[i] in es[..n];
      }
    }
  }

  lemma NewEntriesAreFresh(t: Tables, a: Archive, workspace: string)
    requires WellFormedArchive(a, workspace) && Compatible(t, a, workspace)
    ensures Fresh(t, NewEntries(t, a.entries), workspace)
  {
    var es := NewEntries(t, a.entries);
    NewEntriesAreDistinct(t, a.entries);
    NewEntriesAreMembers(t, a.entries);
    forall i | 0 <= i < |es|
      ensures FreshEntry(t, es[i], workspace)
    {
      assert es[i] in a.entries;
      var j :| 0 <= j < |a.entries| && a.entries[j] == es[i];
      assert EntryFits(t, a.entries[j], workspace) && ValidEntry(a.entries[j], workspace);
    }
  }

  /** Every identifier of the archive is stored already or new. */
  lemma ArchiveIds(t: Tables, es: seq<Record>, id: Id)
    requires HasId(es, id)
    ensures id in t.entries || HasId(NewEntries(t, es), id)
  {
    var i :| 0 <= i < |es| && es[i].id == id;
    NewEntriesAreMembers(t, es);
    if id !in t.entries {
      assert es[i] in NewEntries(t, es);
      var k :| 0 <= k < |NewEntries(t, es)| && NewEntries(t, es)[k] == es[i];
      assert NewEntries(t, es)[k].id == id;
    }
  }

  // Supersession references stay inside the archive.

  lemma {:induction false} ReplacementsOf(es: seq<Record>)
    requires DistinctEntries(es)
    ensures var g := Replacements(Supersessions(es));
            && (forall id :: id in g <==> HasId(es, id))
            && (forall i | 0 <= i < |es| :: es[i].id in g && g[es[i].id] == es[i].lifecycle.supersededBy)
  {
    if es != [] {
      var n := |es| - 1;
      var refs := Supersessions(es);
      assert refs[..n] == Supersessions(es[..n]);
      ReplacementsOf(es[..n]);
      assert es == es[..n] + [es[n]];
      var g, h := Replacements(refs), Replacements(refs[..n]);
      assert g == h[es[n].id := es[n].lifecycle.supersededBy];
      forall id
        ensures id in g <==> HasId(es, id)
      {
        HasIdLast(es, id);
      }
      forall i | 0 <= i < |es|
        ensures es[i].id in g && g[es[i].id] == es[i].lifecycle.supersededBy
      {
        if i < n {
          assert es[..n][i] == es[i];
        }
      }
    }
  }

  lemma HasIdLast(es: seq<Record>, id: Id)
    requires es != []
    ensures HasId(es, id) <==> HasId(es[..|es| - 1], id) || es[|es| - 1].id == id
  {
  }

  lemma SupersessionsInside(a: Archive, workspace: string)
    requires ValidArchive(a, workspace)
    ensures forall i | 0 <= i < |a.entries| :: HasIdOption(a.entries, a.entries[i].lifecycle.supersededBy)
  {
    var refs := Supersessions(a.entries);
    var g := Replacements(refs);
    ReplacementsOf(a.entries);
    forall i | 0 <= i < |a.entries|
      ensures HasIdOption(a.entries, a.entries[i].lifecycle.supersededBy)
    {
      assert Ids(refs)[i] == a.entries[i].id;
      assert Grounded(g, Ids(refs)[i]);
      var n: nat :| Reaches(g, a.entries[i].id, n);
      var next := a.entries[i].lifecycle.supersededBy;
      assert g[a.entries[i].id] == next;
      if next.Some? {
        assert Reaches(g, next.value, n - 1);
      }
    }
  }

  // Rows of new entries.

  lemma {:induction false} RowKeys(es: seq<Record>)
    ensures forall id :: id in Drafts(es) <==> HasId(es, id)
    ensures forall id :: id in Finals(es) <==> HasId(es, id)
    ensures forall k :: k in Revisions(es) <==> k.revision == 1 && HasId(es, k.entryId)
  {
    if es != [] {
      var n := |es| - 1;
      RowKeys(es[..n]);
      forall id
        ensures HasId(es, id) <==> HasId(es[..n], id) || es[n].id == id
      {
        HasIdLast(es, id);
      }
    }
  }

  lemma {:induction false} RowsExact(es: seq<Record>)
    requires DistinctEntries(es)
    ensures forall i | 0 <= i < |es| :: es[i].id in Drafts(es) && Drafts(es)[es[i].id] == RowOf(es[i], DRAFT)
    ensures forall i | 0 <= i < |es| :: es[i].id in Finals(es) && Finals(es)[es[i].id] == RowOf(es[i], es[i].lifecycle)
    ensures forall i | 0 <= i < |es| :: RevisionKey(es[i].id, 1) in Revisions(es)
              && Revisions(es)[RevisionKey(es[i].id, 1)] == RevisionRow(es[i].workspace, es[i].content)
  {
    if es != [] {
      var n := |es| - 1;
      RowsExact(es[..n]);
      forall i | 0 <= i < n
        ensures es[..n][i] == es[i] && es[i].id != es[n].id
      {
      }
      forall i | 0 <= i < |es|
        ensures es[i].id in Drafts(es) && Drafts(es)[es[i].id] == RowOf(es[i], DRAFT)
        ensures es[i].id in Finals(es) && Finals(es)[es[i].id] == RowOf(es[i], es[i].lifecycle)
        ensures RevisionKey(es[i].id, 1) in Revisions(es)
        ensures Revisions(es)[RevisionKey(es[i].id, 1)] == RevisionRow(es[i].workspace, es[i].content)
      {
        if i < n {
          assert es[..n][i] == es[i];
        }
      }
    }
  }

  /** Writing drafts and then their lifecycle reaches the rows of a direct write. */
  lemma TwoPhasesAreDirect(entries: map<Id, EntryRow>, es: seq<Record>)
    ensures (entries + Drafts(es)) + Finals(es) == entries + Finals(es)
  {
    RowKeys(es);
  }

  /** A revision row written for an entry list is one of its entries'. */
  lemma {:induction false} RevisionOwner(es: seq<Record>, k: RevisionKey) returns (i: nat)
    requires k in Revisions(es)
    ensures i < |es| && k == RevisionKey(es[i].id, 1) && Revisions(es)[k] == RevisionRow(es[i].workspace, es[i].content)
  {
    var n := |es| - 1;
    if k == RevisionKey(es[n].id, 1) {
      i := n;
    } else {
      i := RevisionOwner(es[..n], k);
    }
  }

  lemma {:induction false} LinkRowsExact(ls: seq<Link>)
    requires DistinctLinks(ls)
    ensures forall i | 0 <= i < |ls| :: ls[i].key in LinkRows(ls) && LinkRows(ls)[ls[i].key] == ls[i].row
    ensures forall k | k in LinkRows(ls) :: exists i | 0 <= i < |ls| :: ls[i].key == k
  {
    if ls != [] {
      var n := |ls| - 1;
      LinkRowsExact(ls[..n]);
      forall i | 0 <= i < |ls|
        ensures ls[i].key in LinkRows(ls) && LinkRows(ls)[ls[i].key] == ls[i].row
      {
        if i < n {
          assert ls[..n][i] == ls[i];
        }
      }
      forall k | k in LinkRows(ls)
        ensures exists i | 0 <= i < |ls| :: ls[i].key == k
      {
        if k != ls[n].key {
          var i :| 0 <= i < n && ls[..n][i].key == k;
          assert ls[i].key == k;
        }
      }
    }
  }

  lemma {:induction false} AuditRowsExact(es: seq<AuditEvent>, workspace: string)
    requires DistinctAudit(es)
    ensures forall i | 0 <= i < |es| ::
              es[i].eventId in AuditRows(es, workspace) && AuditRows(es, workspace)[es[i].eventId] == AuditRowOf(es[i], workspace)
    ensures forall k | k in AuditRows(es, workspace) :: exists i | 0 <= i < |es| :: es[i].eventId == k
  {
    if es != [] {
      var n := |es| - 1;
      AuditRowsExact(es[..n], workspace);
      forall i | 0 <= i < |es|
        ensures es[i].eventId in AuditRows(es, workspace)
        ensures AuditRows(es, workspace)[es[i].eventId] == AuditRowOf(es[i], workspace)
      {
        if i < n {
          assert es[..n][i] == es[i];
        }
      }
      forall k | k in AuditRows(es, workspace)
        ensures exists i | 0 <= i < |es| :: es[i].eventId == k
      {
        if k != es[n].eventId {
          var i :| 0 <= i < n && es[..n][i].eventId == k;
          assert es[i].eventId == k;
        }
      }
    }
  }

  lemma {:induction false} NewLinksFacts(t: Tables, ls: seq<Link>)
    requires DistinctLinks(ls)
    ensures DistinctLinks(NewLinks(t, ls))
    ensures forall l :: l in NewLinks(t, ls) <==> l in ls && l.key !in t.links
  {
    if ls != [] {
      var n := |ls| - 1;
      NewLinksFacts(t, ls[..n]);
      assert ls == ls[..n] + [ls[n]];
      var rest := NewLinks(t, ls[..n]);
      forall i | 0 <= i < |rest|
        ensures rest[i].key != ls[n].key
      {
        assert rest[i] in ls[..n];
      }
    }
  }

  lemma {:induction false} NewAuditFacts(t: Tables, es: seq<AuditEvent>)
    requires DistinctAudit(es)
    ensures DistinctAudit(NewAudit(t, es))
    ensures forall e :: e in NewAudit(t, es) <==> e in es && e.eventId !in t.audit
  {
    if es != [] {
      var n := |es| - 1;
      NewAuditFacts(t, es[..n]);
      assert es == es[..n] + [es[n]];
      var rest := NewAudit(t, es[..n]);
      forall i | 0 <= i < |rest|
        ensures rest[i].eventId != es[n].eventId
      {
        assert rest[i] in es[..n];
      }
    }
  }

  // The statements.

  lemma DraftFits(t: Tables, es: seq<Record>, workspace: string, i: nat)
    requires Consistent(t) && Fresh(t, es, workspace) && i < |es|
    ensures es[i].id !in t.entries + Drafts(es[..i])
    ensures RevisionKey(es[i].id, 1) !in t.revisions + Revisions(es[..i])
    ensures !HasContent(Tables(t.entries, t.revisions + Revisions(es[..i]), t.links, t.audit), RevisionRow(workspace, es[i].content))
  {
    RowKeys(es[..i]);
    assert FreshEntry(t, es[i], workspace);
    var revisions := t.revisions + Revisions(es[..i]);
    forall k | k in revisions
      ensures revisions[k] != RevisionRow(workspace, es[i].content)
    {
      if k in Revisions(es[..i]) {
        var j := RevisionOwner(es[..i], k);
      }
    }
  }

  lemma DraftStep(entries: map<Id, EntryRow>, revisions: map<RevisionKey, RevisionRow>, es: seq<Record>, i: nat)
    requires i < |es|
    ensures entries + Drafts(es[..i + 1]) == (entries + Drafts(es[..i]))[es[i].id := RowOf(es[i], DRAFT)]
    ensures revisions + Revisions(es[..i + 1])
            == (revisions + Revisions(es[..i]))[RevisionKey(es[i].id, 1) := RevisionRow(es[i].workspace, es[i].content)]
  {
    assert es[..i + 1][..i] == es[..i];
  }

  lemma StillDraft(es: seq<Record>, i: nat)
    requires i < |es| && DistinctEntries(es)
    ensures es[i].id in Drafts(es) && Drafts(es)[es[i].id] == RowOf(es[i], DRAFT)
    ensures es[i].id !in Finals(es[..i])
  {
    RowsExact(es);
    RowKeys(es[..i]);
  }

  lemma FinalStep(entries: map<Id, EntryRow>, es: seq<Record>, i: nat)
    requires i < |es| && DistinctEntries(es)
    ensures var now := entries + Drafts(es) + Finals(es[..i]);
            && es[i].id in now && now[es[i].id] == RowOf(es[i], DRAFT)
            && entries + Drafts(es) + Finals(es[..i + 1]) == now[es[i].id := RowOf(es[i], es[i].lifecycle)]
  {
    hide Drafts, DistinctEntries, RowOf;
    StillDraft(es, i);
    FinalNext(es, i);
    hide Finals;
    ReplaceRow(entries, Drafts(es), Finals(es[..i]), es[i].id, RowOf(es[i], es[i].lifecycle));
  }

  lemma FinalNext(es: seq<Record>, i: nat)
    requires i < |es|
    ensures Finals(es[..i + 1]) == Finals(es[..i])[es[i].id := RowOf(es[i], es[i].lifecycle)]
  {
    assert es[..i + 1][..i] == es[..i];
  }

  lemma ReplaceRow(a: map<Id, EntryRow>, b: map<Id, EntryRow>, c: map<Id, EntryRow>, id: Id, row: EntryRow)
    requires id in b && id !in c
    ensures id in a + b + c && (a + b + c)[id] == b[id]
    ensures a + b + c[id := row] == (a + b + c)[id := row]
  {
  }

  lemma LinkStep(links: map<LinkKey, LinkRow>, ls: seq<Link>, i: nat)
    requires i < |ls| && DistinctLinks(ls) && ls[i].key !in links
    ensures ls[i].key !in links + LinkRows(ls[..i])
    ensures links + LinkRows(ls[..i + 1]) == (links + LinkRows(ls[..i]))[ls[i].key := ls[i].row]
  {
    assert ls[..i + 1][..i] == ls[..i];
    LinkRowsExact(ls[..i]);
  }

  lemma AuditStep(audit: map<Id, AuditRow>, es: seq<AuditEvent>, workspace: string, i: nat)
    requires i < |es| && DistinctAudit(es) && es[i].eventId !in audit
    ensures es[i].eventId !in audit + AuditRows(es[..i], workspace)
    ensures audit + AuditRows(es[..i + 1], workspace)
            == (audit + AuditRows(es[..i], workspace))[es[i].eventId := AuditRowOf(es[i], workspace)]
  {
    hide AuditRowOf, DistinctAudit;
    AuditKeyIsNew(es, workspace, i);
    assert es[..i + 1][..i] == es[..i];
    assert AuditRows(es[..i + 1], workspace) == AuditRows(es[..i], workspace)[es[i].eventId := AuditRowOf(es[i], workspace)];
    hide AuditRows;
  }

  lemma AuditKeyIsNew(es: seq<AuditEvent>, workspace: string, i: nat)
    requires i < |es| && DistinctAudit(es)
    ensures es[i].eventId !in AuditRows(es[..i], workspace)
  {
    AuditRowsExact(es[..i], workspace);
  }

  /** The entry row and the revision row of one draft. */
  method WriteDraft(db: Database, ghost t: Tables, es: seq<Record>, workspace: string, i: nat)
    requires Consistent(t) && Fresh(t, es, workspace) && i < |es|
    requires db.entries == t.entries + Drafts(es[..i]) && db.revisions == t.revisions + Revisions(es[..i])
    modifies db`entries, db`revisions
    ensures db.entries == t.entries + Drafts(es[..i + 1]) && db.revisions == t.revisions + Revisions(es[..i + 1])
  {
    DraftFits(t, es, workspace, i);
    DraftStep(t.entries, t.revisions, es, i);
    assert FreshEntry(t, es[i], workspace);
    hide Drafts, Revisions, Consistent, Fresh, FreshEntry;
    var ok := db.InsertEntry(es[i].id, RowOf(es[i], DRAFT));
    assert ok;
    var key := RevisionKey(es[i].id, 1);
    var row := RevisionRow(workspace, es[i].content);
    assert HasContent(db.Snapshot(), row)
        == HasContent(Tables(t.entries, t.revisions + Revisions(es[..i]), t.links, t.audit), row);
    ok := db.InsertRevision(key, row);
    assert ok;
  }

  /** First phase: every new entry as a candidate without a successor, and its revision. */
  method WriteDrafts(db: Database, es: seq<Record>, workspace: string)
    requires Consistent(db.Snapshot()) && Fresh(db.Snapshot(), es, workspace)
    modifies db`entries, db`revisions
    ensures db.entries == old(db.entries) + Drafts(es) && db.revisions == old(db.revisions) + Revisions(es)
  {
    ghost var t := db.Snapshot();
    for i := 0 to |es|
      invariant db.entries == t.entries + Drafts(es[..i]) && db.revisions == t.revisions + Revisions(es[..i])
    {
      hide Drafts, Revisions, Consistent, Fresh;
      WriteDraft(db, t, es, workspace, i);
    }
    assert es[..|es|] == es;
  }

  /** Second phase: status, successor and verification time of the archive. */
  method WriteLifecycles(db: Database, es: seq<Record>, workspace: string, ghost before: map<Id, EntryRow>)
    requires DistinctEntries(es) && forall i | 0 <= i < |es| :: ValidEntry(es[i], workspace)
    requires db.entries == before + Drafts(es)
    requires forall i | 0 <= i < |es| :: References(db.Snapshot(), es[i].lifecycle.supersededBy)
    modifies db`entries
    ensures db.entries == before + Finals(es)
  {
    for i := 0 to |es|
      invariant db.entries == before + Drafts(es) + Finals(es[..i])
      invariant db.entries.Keys == old(db.entries.Keys)
    {
      hide Drafts, Finals, DistinctEntries;
      FinalStep(before, es, i);
      assert References(db.Snapshot(), es[i].lifecycle.supersededBy)
          == References(old(db.Snapshot()), es[i].lifecycle.supersededBy);
      var ok := db.UpdateLifecycle(es[i].id, workspace, es[i].lifecycle);
      assert ok;
    }
    assert es[..|es|] == es;
    TwoPhasesAreDirect(before, es);
  }

  method WriteLinks(db: Database, ls: seq<Link>)
    requires DistinctLinks(ls) && forall i | 0 <= i < |ls| :: ls[i].key !in db.links
    requires forall i | 0 <= i < |ls| :: ls[i].key.fromId in db.entries && ls[i].key.toId in db.entries
    modifies db`links
    ensures db.links == old(db.links) + LinkRows(ls)
  {
    for i := 0 to |ls|
      invariant db.links == old(db.links) + LinkRows(ls[..i])
    {
      hide LinkRows, DistinctLinks;
      LinkStep(old(db.links), ls, i);
      var ok := db.InsertLink(ls[i].key, ls[i].row);
      assert ok;
    }
    assert ls[..|ls|] == ls;
  }

  method WriteAudit(db: Database, es: seq<AuditEvent>, workspace: string)
    requires DistinctAudit(es) && forall i | 0 <= i < |es| :: es[i].eventId !in db.audit
    requires forall i | 0 <= i < |es| :: References(db.Snapshot(), es[i].entryId)
    modifies db`audit
    ensures db.audit == old(db.audit) + AuditRows(es, workspace)
  {
    for i := 0 to |es|
      invariant db.audit == old(db.audit) + AuditRows(es[..i], workspace)
    {
      hide AuditRows, DistinctAudit;
      AuditStep(old(db.audit), es, workspace, i);
      assert References(db.Snapshot(), es[i].entryId) == References(old(db.Snapshot()), es[i].entryId);
      var ok := db.InsertAudit(es[i].eventId, AuditRowOf(es[i], workspace));
      assert ok;
    }
    assert es[..|es|] == es;
  }

  // The transaction.

  datatype ImportError = BadArchive | BadSupersession(verdict: Verdict) | Conflicting(conflict: Conflict)

  /** What an import answers, from the archive and the tables it found. */
  ghost predicate Answers(r: Result<Summary, ImportError>, t: Tables, a: Archive, workspace: string) {
    if !WellFormedArchive(a, workspace) then r == Err(BadArchive)
    else if !ValidArchive(a, workspace) then
      && r.Err? && r.error.BadSupersession? && !r.error.verdict.Accepted?
      && Decides(r.error.verdict, Replacements(Supersessions(a.entries)), Ids(Supersessions(a.entries)))
    else
      var c := PlanConflict(t, a, workspace);
      if c.Some? then r == Err(Conflicting(c.value))
      else
        var n := |NewEntries(t, a.entries)|;
        r == Ok(Summary(|a.entries|, n, |a.entries| - n))
  }

  lemma EntriesStored(t: Tables, after: map<Id, EntryRow>, es: seq<Record>)
    requires forall id | id in t.entries || HasId(NewEntries(t, es), id) :: id in after
    ensures forall id | HasId(es, id) :: id in after
  {
    forall id | HasId(es, id)
      ensures id in after
    {
      ArchiveIds(t, es, id);
    }
  }

  lemma LinkReferencesStored(t: Tables, after: map<Id, EntryRow>, a: Archive, workspace: string)
    requires WellFormedArchive(a, workspace) && forall id | HasId(a.entries, id) :: id in after
    ensures forall l | l in NewLinks(t, a.links) :: l.key.fromId in after && l.key.toId in after
    ensures forall e | e in NewAudit(t, a.audit) :: e.entryId.None? || e.entryId.value in after
  {
    hide HasId, ValidEntry, DistinctEntries, DistinctLinks, DistinctAudit, NewLinks, NewAudit;
    NewLinksFacts(t, a.links);
    NewAuditFacts(t, a.audit);
  }

  /** The references that the archive's lines make are stored once its entries are. */
  lemma ReferencesStored(t: Tables, after: map<Id, EntryRow>, a: Archive, workspace: string)
    requires ValidArchive(a, workspace)
    requires forall id | id in t.entries || HasId(NewEntries(t, a.entries), id) :: id in after
    ensures forall e | e in NewEntries(t, a.entries) :: e.lifecycle.supersededBy.None? || e.lifecycle.supersededBy.value in after
    ensures forall l | l in NewLinks(t, a.links) :: l.key.fromId in after && l.key.toId in after
    ensures forall e | e in NewAudit(t, a.audit) :: e.entryId.None? || e.entryId.value in after
  {
    hide HasId, NewEntries, WellFormedArchive, NewLinks, NewAudit;
    EntriesStored(t, after, a.entries);
    LinkReferencesStored(t, after, a, workspace);
    SupersessionsInside(a, workspace);
    NewEntriesAreMembers(t, a.entries);
  }

  /** What the later statements of a plan need, once the entries `after` are stored. */
  ghost predicate Writable(t: Tables, after: map<Id, EntryRow>, workspace: string, es: seq<Record>, ls: seq<Link>,
                           au: seq<AuditEvent>) {
    && DistinctEntries(es) && DistinctLinks(ls) && DistinctAudit(au)
    && (forall i | 0 <= i < |es| :: ValidEntry(es[i], workspace))
    && (forall i | 0 <= i < |es| :: es[i].lifecycle.supersededBy.None? || es[i].lifecycle.supersededBy.value in after)
    && (forall i | 0 <= i < |ls| :: ls[i].key !in t.links && ls[i].key.fromId in after && ls[i].key.toId in after)
    && (forall i | 0 <= i < |au| :: au[i].eventId !in t.audit && (au[i].entryId.None? || au[i].entryId.value in after))
  }

  lemma PlanIsWritable(t: Tables, a: Archive, workspace: string, after: map<Id, EntryRow>)
    requires ValidArchive(a, workspace) && Fresh(t, NewEntries(t, a.entries), workspace)
    requires after == t.entries + Drafts(NewEntries(t, a.entries))
    ensures Writable(t, after, workspace, NewEntries(t, a.entries), NewLinks(t, a.links), NewAudit(t, a.audit))
  {
    hide NewEntries, NewLinks, NewAudit, Drafts, HasContent, AllGrounded, HasId, DistinctEntries, DistinctLinks, DistinctAudit;
    NewLinksFacts(t, a.links);
    NewAuditFacts(t, a.audit);
    RowKeys(NewEntries(t, a.entries));
    ReferencesStored(t, after, a, workspace);
    var es := NewEntries(t, a.entries);
    assert forall i | 0 <= i < |es| :: es[i] in es && FreshEntry(t, es[i], workspace);
  }

  /** Apply a plan: none of its statements can fail, and together they write the archive. */
  method ApplyPlan(db: Database, a: Archive, workspace: string, es: seq<Record>, ls: seq<Link>, au: seq<AuditEvent>)
    requires ValidArchive(a, workspace) && Consistent(db.Snapshot()) && PlanConflict(db.Snapshot(), a, workspace).None?
    requires es == NewEntries(db.Snapshot(), a.entries) && ls == NewLinks(db.Snapshot(), a.links)
    requires au == NewAudit(db.Snapshot(), a.audit)
    modifies db
    ensures db.Snapshot() == Imported(old(db.Snapshot()), a, workspace)
  {
    hide PlanConflict, NewEntries, NewLinks, NewAudit, Drafts, Finals, Revisions, LinkRows, AuditRows, Consistent, HasContent;
    hide ValidEntry, DistinctEntries, DistinctLinks, DistinctAudit, Compatible, Fresh, AllGrounded;
    ghost var t := db.Snapshot();
    PlanSucceedsIffCompatible(t, a, workspace);
    NewEntriesAreFresh(t, a, workspace);
    PlanIsWritable(t, a, workspace, t.entries + Drafts(es));
    hide ValidArchive, WellFormedArchive;
    WriteDrafts(db, es, workspace);
    WriteLifecycles(db, es, workspace, t.entries);
    SameKeys(t.entries, es);
    WriteLinks(db, ls);
    WriteAudit(db, au, workspace);
  }

  lemma SameKeys(entries: map<Id, EntryRow>, es: seq<Record>)
    ensures (entries + Finals(es)).Keys == (entries + Drafts(es)).Keys
  {
  }

  method PlanImport(db: Database, a: Archive, workspace: string)
    returns (r: Result<Plan, Conflict>, links: seq<Link>, audit: seq<AuditEvent>)
    ensures var t := db.Snapshot();
            var c := PlanConflict(t, a, workspace);
            if c.Some? then r == Err(c.value)
            else r == Ok(Plan(NewEntries(t, a.entries), |a.entries| - |NewEntries(t, a.entries)|))
                 && links == NewLinks(t, a.links) && audit == NewAudit(t, a.audit)
  {
    hide First, NewEntries, NewLinks, NewAudit;
    links, audit := [], [];
    r := PlanEntryImport(db, a.entries, workspace);
    if r.Err? {
      return;
    }
    var planned := PlanLinks(db, a.links);
    if planned.Err? {
      return Err(planned.error), [], [];
    }
    var events := PlanAudit(db, a.audit, workspace);
    if events.Err? {
      return Err(events.error), [], [];
    }
    return r, planned.value, events.value;
  }

  /** Validate, plan and apply; a dry run stops after planning. */
  method ImportWorkspace(db: Database, a: Archive, workspace: string, dryRun: bool) returns (r: Result<Summary, ImportError>)
    requires Consistent(db.Snapshot())
    modifies db
    ensures Answers(r, old(db.Snapshot()), a, workspace)
    ensures db.Snapshot() == if r.Ok? && !dryRun then Imported(old(db.Snapshot()), a, workspace) else old(db.Snapshot())
  {
    hide PlanConflict, NewEntries, NewLinks, NewAudit, First, Consistent, Imported, WellFormedArchive;
    if !WellFormedArchive(a, workspace) {
      return Err(BadArchive);
    }
    var verdict := ValidateSupersession(Supersessions(a.entries));
    if !verdict.Accepted? {
      return Err(BadSupersession(verdict));
    }
    var plan, links, audit := PlanImport(db, a, workspace);
    if plan.Err? {
      return Err(Conflicting(plan.error));
    }
    if !dryRun {
      ApplyPlan(db, a, workspace, plan.value.newEntries, links, audit);
    }
    return Ok(Summary(|a.entries|, |plan.value.newEntries|, plan.value.duplicates));
  }
}
