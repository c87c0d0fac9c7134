/** What a successful import leaves behind: the archive exactly, everything older untouched, nothing more, and a
    second import that finds nothing to do. */
module ImportLaws {
  import opened Wrappers
  import opened Supersession
  import opened ImportTables
  import opened ImportApply

  ghost predicate Importable(t: Tables, a: Archive, workspace: string) {
    Consistent(t) && ValidArchive(a, workspace) && PlanConflict(t, a, workspace).None?
  }

  /** Rows that were stored before are stored after, with the same values. */
  ghost predicate Keeps(before: Tables, after: Tables) {
    && (forall id | id in before.entries :: id in after.entries && after.entries[id] == before.entries[id])
    && (forall k | k in before.revisions :: k in after.revisions && after.revisions[k] == before.revisions[k])
    && (forall k | k in before.links :: k in after.links && after.links[k] == before.links[k])
    && (forall k | k in before.audit :: k in after.audit && after.audit[k] == before.audit[k])
  }

  predicate HasLink(ls: seq<Link>, k: LinkKey) {
    exists i | 0 <= i < |ls| :: ls[i].key == k
  }

  predicate HasEvent(es: seq<AuditEvent>, k: Id) {
    exists i | 0 <= i < |es| :: es[i].eventId == k
  }

  /** Every row stored after was stored before or belongs to the archive. */
  ghost predicate AddsOnly(before: Tables, after: Tables, a: Archive) {
    && (forall id | id in after.entries :: id in before.entries || HasId(a.entries, id))
    && (forall k | k in after.revisions :: k in before.revisions || (k.revision == 1 && HasId(a.entries, k.entryId)))
    && (forall k | k in after.links :: k in before.links || HasLink(a.links, k))
    && (forall k | k in after.audit :: k in before.audit || HasEvent(a.audit, k))
  }

  /** Every line of the archive is stored with its own values. */
  ghost predicate HoldsExactly(t: Tables, a: Archive, workspace: string) {
    && (forall i | 0 <= i < |a.entries| :: ReadEntry(t, workspace, a.entries[i].id) == Some(a.entries[i]))
    && (forall i | 0 <= i < |a.links| :: a.links[i].key in t.links && t.links[a.links[i].key] == a.links[i].row)
    && (forall i | 0 <= i < |a.audit| ::
          a.audit[i].eventId in t.audit && t.audit[a.audit[i].eventId] == AuditRowOf(a.audit[i], workspace))
  }

  lemma HasIdOfMember(es: seq<Record>, sub: seq<Record>, id: Id)
    requires forall e | e in sub :: e in es
    ensures HasId(sub, id) ==> HasId(es, id)
  {
    if HasId(sub, id) {
      var i :| 0 <= i < |sub| && sub[i].id == id;
      assert sub[i] in es;
      var j :| 0 <= j < |es| && es[j] == sub[i];
      assert es[j].id == id;
    }
  }

  lemma EntriesKept(t: Tables, a: Archive, workspace: string)
    requires Importable(t, a, workspace)
    ensures var u := Imported(t, a, workspace);
            && (forall id | id in t.entries :: id in u.entries && u.entries[id] == t.entries[id])
            && (forall k | k in t.revisions :: k in u.revisions && u.revisions[k] == t.revisions[k])
            && (forall id | id in u.entries :: id in t.entries || HasId(a.entries, id))
            && (forall k | k in u.revisions :: k in t.revisions || (k.revision == 1 && HasId(a.entries, k.entryId)))
  {
    var es := NewEntries(t, a.entries);
    NewEntriesAreMembers(t, a.entries);
    RowKeys(es);
    forall id
      ensures HasId(es, id) ==> HasId(a.entries, id) && id !in t.entries
    {
      HasIdOfMember(a.entries, es, id);
      if HasId(es, id) {
        var i :| 0 <= i < |es| && es[i].id == id;
        assert es[i] in es;
      }
    }
    hide NewEntries, Finals, Revisions, HasId, PlanConflict, ValidArchive;
  }

  lemma LinkRowOrigin(t: Tables, ls: seq<Link>, k: LinkKey)
    requires DistinctLinks(ls) && k in LinkRows(NewLinks(t, ls))
    ensures k !in t.links && HasLink(ls, k)
  {
    var planned := NewLinks(t, ls);
    NewLinksFacts(t, ls);
    LinkRowsExact(planned);
    var j :| 0 <= j < |planned| && planned[j].key == k;
    assert planned[j] in ls;
  }

  lemma LinkHeld(t: Tables, ls: seq<Link>, i: nat)
    requires DistinctLinks(ls) && i < |ls| && LinkFits(t, ls[i])
    ensures var links := t.links + LinkRows(NewLinks(t, ls)); ls[i].key in links && links[ls[i].key] == ls[i].row
  {
    var planned := NewLinks(t, ls);
    NewLinksFacts(t, ls);
    LinkRowsExact(planned);
    if ls[i].key !in t.links {
      assert ls[i] in planned;
    } else if ls[i].key in LinkRows(planned) {
      LinkRowOrigin(t, ls, ls[i].key);
    }
  }

  lemma LinksKept(t: Tables, a: Archive, workspace: string)
    requires Importable(t, a, workspace)
    ensures var u := Imported(t, a, workspace);
            && (forall k | k in t.links :: k in u.links && u.links[k] == t.links[k])
            && (forall k | k in u.links :: k in t.links || HasLink(a.links, k))
            && (forall i | 0 <= i < |a.links| :: a.links[i].key in u.links && u.links[a.links[i].key] == a.links[i].row)
  {
    PlanSucceedsIffCompatible(t, a, workspace);
    hide NewLinks, LinkRows, PlanConflict, Consistent, DistinctLinks, HasLink, LinkFits, EntryFits, AuditFits;
    forall k | k in LinkRows(NewLinks(t, a.links))
      ensures k !in t.links && HasLink(a.links, k)
    {
      LinkRowOrigin(t, a.links, k);
    }
    forall i | 0 <= i < |a.links|
      ensures var links := t.links + LinkRows(NewLinks(t, a.links));
              a.links[i].key in links && links[a.links[i].key] == a.links[i].row
    {
      LinkHeld(t, a.links, i);
    }
  }

  lemma AuditRowOrigin(t: Tables, es: seq<AuditEvent>, workspace: string, k: Id)
    requires DistinctAudit(es) && k in AuditRows(NewAudit(t, es), workspace)
    ensures k !in t.audit && HasEvent(es, k)
  {
    var planned := NewAudit(t, es);
    NewAuditFacts(t, es);
    AuditRowsExact(planned, workspace);
    var j :| 0 <= j < |planned| && planned[j].eventId == k;
    assert planned[j] in es;
  }

  lemma AuditHeld(t: Tables, es: seq<AuditEvent>, workspace: string, i: nat)
    requires DistinctAudit(es) && i < |es| && AuditFits(t, es[i], workspace)
    ensures var audit := t.audit + AuditRows(NewAudit(t, es), workspace);
            es[i].eventId in audit && audit[es[i].eventId] == AuditRowOf(es[i], workspace)
  {
    var planned := NewAudit(t, es);
    NewAuditFacts(t, es);
    AuditRowsExact(planned, workspace);
    if es[i].eventId !in t.audit {
      assert es[i] in planned;
    } else if es[i].eventId in AuditRows(planned, workspace) {
      AuditRowOrigin(t, es, workspace, es[i].eventId);
    }
  }

  lemma AuditKept(t: Tables, a: Archive, workspace: string)
    requires Importable(t, a, workspace)
    ensures var u := Imported(t, a, workspace);
            && (forall k | k in t.audit :: k in u.audit && u.audit[k] == t.audit[k])
            && (forall k | k in u.audit :: k in t.audit || HasEvent(a.audit, k))
            && (forall i | 0 <= i < |a.audit| ::
                  a.audit[i].eventId in u.audit && u.audit[a.audit[i].eventId] == AuditRowOf(a.audit[i], workspace))
  {
    PlanSucceedsIffCompatible(t, a, workspace);
    hide NewAudit, AuditRows, PlanConflict, Consistent, DistinctAudit, HasEvent, LinkFits, EntryFits, AuditFits;
    forall k | k in AuditRows(NewAudit(t, a.audit), workspace)
      ensures k !in t.audit && HasEvent(a.audit, k)
    {
      AuditRowOrigin(t, a.audit, workspace, k);
    }
    forall i | 0 <= i < |a.audit|
      ensures var audit := t.audit + AuditRows(NewAudit(t, a.audit), workspace);
              a.audit[i].eventId in audit && audit[a.audit[i].eventId] == AuditRowOf(a.audit[i], workspace)
    {
      AuditHeld(t, a.audit, workspace, i);
    }
  }

  /** One archive entry, read back after the import. */
  lemma EntryHeld(t: Tables, a: Archive, workspace: string, i: nat)
    requires Importable(t, a, workspace) && i < |a.entries|
    ensures ReadEntry(Imported(t, a, workspace), workspace, a.entries[i].id) == Some(a.entries[i])
  {
    hide PlanConflict, Finals, Revisions, NewEntries, ContentsUnique, LinksConsistent, AuditConsistent, RevisionsConsistent;
    var e := a.entries[i];
    var es := NewEntries(t, a.entries);
    PlanSucceedsIffCompatible(t, a, workspace);
    assert EntryFits(t, e, workspace) && ValidEntry(e, workspace);
    EntriesKept(t, a, workspace);
    if e.id !in t.entries {
      NewEntriesAreMembers(t, a.entries);
      NewEntriesAreDistinct(t, a.entries);
      RowsExact(es);
      assert e in es;
      var j :| 0 <= j < |es| && es[j] == e;
      hide DistinctEntries, EntriesConsistent;
      assert Finals(es)[es[j].id] == RowOf(e, e.lifecycle);
    }
  }

  /** The main result: the archive is stored exactly, older rows are untouched, and nothing else is stored. */
  lemma ImportIsExact(t: Tables, a: Archive, workspace: string)
    requires Importable(t, a, workspace)
    ensures var u := Imported(t, a, workspace); HoldsExactly(u, a, workspace) && Keeps(t, u) && AddsOnly(t, u, a)
  {
    hide PlanConflict, Finals, Revisions, NewEntries, Imported, Importable, ReadEntry, HasId, HasLink, HasEvent, AuditRowOf;
    EntriesKept(t, a, workspace);
    LinksKept(t, a, workspace);
    AuditKept(t, a, workspace);
    forall i | 0 <= i < |a.entries|
      ensures ReadEntry(Imported(t, a, workspace), workspace, a.entries[i].id) == Some(a.entries[i])
    {
      EntryHeld(t, a, workspace, i);
    }
  }

  // The tables stay consistent.

  lemma FinalOwner(es: seq<Record>, id: Id) returns (i: nat)
    requires id in Finals(es)
    ensures i < |es| && es[i].id == id && Finals(es)[id] == RowOf(es[i], es[i].lifecycle)
  {
    var n := |es| - 1;
    if es[n].id == id {
      i := n;
    } else {
      i := FinalOwner(es[..n], id);
    }
  }

  ghost predicate EntryConsistent(t: Tables, id: Id, row: EntryRow) {
    && References(t, row.lifecycle.supersededBy)
    && (row.lifecycle.status.Superseded? ==> row.lifecycle.supersededBy.Some?)
    && RevisionKey(id, row.currentRevision) in t.revisions
  }

  lemma NewRowConsistent(t: Tables, a: Archive, workspace: string, id: Id)
    requires Importable(t, a, workspace) && id in Finals(NewEntries(t, a.entries))
    ensures EntryConsistent(Imported(t, a, workspace), id, Finals(NewEntries(t, a.entries))[id])
  {
    hide PlanConflict, Consistent, AllGrounded, NewLinks, NewAudit, AuditRows, LinkRows, NewEntries, Finals, Revisions;
    var u := Imported(t, a, workspace);
    var es := NewEntries(t, a.entries);
    RowKeys(es);
    ReferencesStored(t, u.entries, a, workspace);
    var i := FinalOwner(es, id);
    NewEntriesAreMembers(t, a.entries);
    assert es[i] in es && es[i] in a.entries;
  }

  lemma EntriesStayConsistent(t: Tables, a: Archive, workspace: string)
    requires Importable(t, a, workspace)
    ensures EntriesConsistent(Imported(t, a, workspace))
  {
    hide PlanConflict, ValidArchive, NewLinks, NewAudit, AuditRows, LinkRows, NewEntries, Finals, Revisions, HasId;
    hide ContentsUnique, LinksConsistent, AuditConsistent, RevisionsConsistent;
    var u := Imported(t, a, workspace);
    EntriesKept(t, a, workspace);
    forall id | id in u.entries
      ensures EntryConsistent(u, id, u.entries[id])
    {
      if id in Finals(NewEntries(t, a.entries)) {
        NewRowConsistent(t, a, workspace, id);
      } else {
        assert id in t.entries;
      }
    }
  }

  lemma RevisionsStayConsistent(t: Tables, a: Archive, workspace: string)
    requires Importable(t, a, workspace)
    ensures RevisionsConsistent(Imported(t, a, workspace))
  {
    hide PlanConflict, ValidArchive, NewLinks, NewAudit, AuditRows, LinkRows, NewEntries, Finals, Revisions, HasId;
    hide ContentsUnique, LinksConsistent, AuditConsistent, EntriesConsistent;
    var u := Imported(t, a, workspace);
    var es := NewEntries(t, a.entries);
    EntriesKept(t, a, workspace);
    forall k | k in u.revisions
      ensures k.entryId in u.entries && u.entries[k.entryId].workspace == u.revisions[k].workspace
    {
      if k in Revisions(es) {
        NewRevisionConsistent(es, k);
      } else {
        assert k in t.revisions;
      }
    }
  }

  lemma {:induction false} NewRevisionConsistent(es: seq<Record>, k: RevisionKey)
    requires k in Revisions(es)
    ensures k.entryId in Finals(es) && Finals(es)[k.entryId].workspace == Revisions(es)[k].workspace
  {
    var n := |es| - 1;
    if k.entryId == es[n].id {
      RowKeys(es[..n]);
      RowKeys(es);
    } else {
      NewRevisionConsistent(es[..n], k);
    }
  }

  /** No two revisions of one workspace have the same content, also after the import. */
  lemma ContentsStayUnique(t: Tables, a: Archive, workspace: string)
    requires Importable(t, a, workspace)
    ensures ContentsUnique(Imported(t, a, workspace))
  {
    var u := Imported(t, a, workspace);
    var es := NewEntries(t, a.entries);
    PlanSucceedsIffCompatible(t, a, workspace);
    NewEntriesAreFresh(t, a, workspace);
    hide PlanConflict, ValidArchive, NewLinks, NewAudit, AuditRows, LinkRows, NewEntries, Finals, Revisions, HasId;
    hide LinksConsistent, AuditConsistent, EntriesConsistent, Compatible;
    forall j, k | j in u.revisions && k in u.revisions && u.revisions[j] == u.revisions[k]
      ensures j == k
    {
      NewContentIsNew(t, es, workspace, j, k);
      NewContentIsNew(t, es, workspace, k, j);
    }
  }

  lemma NewContentIsNew(t: Tables, es: seq<Record>, workspace: string, j: RevisionKey, k: RevisionKey)
    requires Fresh(t, es, workspace)
    ensures j in Revisions(es) && k in Revisions(es) && Revisions(es)[j] == Revisions(es)[k] ==> j == k
    ensures j in Revisions(es) && k in t.revisions ==> Revisions(es)[j] != t.revisions[k]
  {
    if j in Revisions(es) {
      var i := RevisionOwner(es, j);
      assert FreshEntry(t, es[i], workspace);
      if k in Revisions(es) {
        var i' := RevisionOwner(es, k);
        assert i < i' || i' < i || i == i';
      }
    }
  }

  /** An import keeps every constraint of the schema. */
  lemma ImportKeepsConsistency(t: Tables, a: Archive, workspace: string)
    requires Importable(t, a, workspace)
    ensures Consistent(Imported(t, a, workspace))
  {
    hide PlanConflict, NewLinks, NewAudit, AuditRows, LinkRows, NewEntries, Finals, Revisions, Imported;
    hide EntriesConsistent, RevisionsConsistent, ContentsUnique, AllGrounded;
    var u := Imported(t, a, workspace);
    EntriesStayConsistent(t, a, workspace);
    RevisionsStayConsistent(t, a, workspace);
    ContentsStayUnique(t, a, workspace);
    ImportIsExact(t, a, workspace);
    HeldIds(t, a, workspace);
    hide HasId;
    forall k | k in u.links
      ensures k.fromId in u.entries && k.toId in u.entries
    {
      if k !in t.links {
        var i :| 0 <= i < |a.links| && a.links[i].key == k;
      }
    }
    forall k | k in u.audit
      ensures References(u, u.audit[k].entryId)
    {
      if k !in t.audit {
        var i :| 0 <= i < |a.audit| && a.audit[i].eventId == k;
      }
    }
  }

  lemma HeldIds(t: Tables, a: Archive, workspace: string)
    requires Importable(t, a, workspace)
    ensures forall id | HasId(a.entries, id) :: id in Imported(t, a, workspace).entries
  {
    hide PlanConflict, ValidArchive, Imported, Consistent;
    ImportIsExact(t, a, workspace);
  }

  // Importing again.

  lemma {:induction false} NothingNew(t: Tables, a: Archive)
    requires forall i | 0 <= i < |a.entries| :: a.entries[i].id in t.entries
    requires forall i | 0 <= i < |a.links| :: a.links[i].key in t.links
    requires forall i | 0 <= i < |a.audit| :: a.audit[i].eventId in t.audit
    ensures NewEntries(t, a.entries) == [] && NewLinks(t, a.links) == [] && NewAudit(t, a.audit) == []
    decreases |a.entries| + |a.links| + |a.audit|
  {
    if a.entries != [] {
      NothingNew(t, a.(entries := a.entries[..|a.entries| - 1]));
    } else if a.links != [] {
      NothingNew(t, a.(links := a.links[..|a.links| - 1]));
    } else if a.audit != [] {
      NothingNew(t, a.(audit := a.audit[..|a.audit| - 1]));
    }
  }

  /** Importing the same archive again is accepted, finds every line a duplicate, and changes nothing. */
  lemma ImportAgainDoesNothing(t: Tables, a: Archive, workspace: string)
    requires Importable(t, a, workspace)
    ensures var u := Imported(t, a, workspace);
            Importable(u, a, workspace) && NewEntries(u, a.entries) == [] && Imported(u, a, workspace) == u
  {
    hide Consistent, ValidArchive, PlanConflict, Imported, Keeps, AddsOnly, RowOf, LinkFits, AuditFits, EntryFits;
    var u := Imported(t, a, workspace);
    ImportIsExact(t, a, workspace);
    ImportKeepsConsistency(t, a, workspace);
    HeldIsCompatible(u, a, workspace);
    NothingNew(u, a);
    PlanSucceedsIffCompatible(u, a, workspace);
    NothingWritten(u, a, workspace);
  }

  lemma HeldIsCompatible(t: Tables, a: Archive, workspace: string)
    requires HoldsExactly(t, a, workspace)
    ensures Compatible(t, a, workspace)
    ensures forall i | 0 <= i < |a.entries| :: a.entries[i].id in t.entries
    ensures forall i | 0 <= i < |a.links| :: a.links[i].key in t.links
    ensures forall i | 0 <= i < |a.audit| :: a.audit[i].eventId in t.audit
  {
  }

  lemma NothingWritten(t: Tables, a: Archive, workspace: string)
    requires NewEntries(t, a.entries) == [] && NewLinks(t, a.links) == [] && NewAudit(t, a.audit) == []
    ensures Imported(t, a, workspace) == t
  {
  }
}
