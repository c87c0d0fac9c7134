/** Planning and applying an archive against a database, statement by statement. */
module ImportStore {
  import opened Wrappers
  import opened ImportTables
  import opened Supersession

  datatype Summary = Summary(count: nat, imported: nat, duplicates: nat)

  datatype Plan = Plan(newEntries: seq<Record>, duplicates: nat)

  class Database {
    var entries: map<Id, EntryRow>
    var revisions: map<RevisionKey, RevisionRow>
    var links: map<LinkKey, LinkRow>
    var audit: map<Id, AuditRow>

    function Snapshot(): Tables
      reads this
    {
      Tables(entries, revisions, links, audit)
    }

    constructor ()
      ensures Consistent(Snapshot()) && Snapshot() == Tables(map[], map[], map[], map[])
    {
      entries, revisions, links, audit := map[], map[], map[], map[];
    }

    // Statements; each fails, and changes nothing, when a constraint of the schema is violated.

    method InsertEntry(id: Id, row: EntryRow) returns (ok: bool)
      modifies this`entries
      ensures ok <==> id !in old(entries) && (row.lifecycle.supersededBy == Some(id) || References(old(Snapshot()), row.lifecycle.supersededBy))
                      && (row.lifecycle.status.Superseded? ==> row.lifecycle.supersededBy.Some?)
      ensures entries == if ok then old(entries)[id := row] else old(entries)
    {
      ok := id !in entries && (row.lifecycle.supersededBy == Some(id) || References(Snapshot(), row.lifecycle.supersededBy))
      && (row.lifecycle.status.Superseded? ==> row.lifecycle.supersededBy.Some?);
      if ok {
        entries := entries[id := row];
      }
    }

    method InsertRevision(key: RevisionKey, row: RevisionRow) returns (ok: bool)
      modifies this`revisions
      ensures ok <==> key !in old(revisions) && key.entryId in entries && entries[key.entryId].workspace == row.workspace
                      && !HasContent(old(Snapshot()), row)
      ensures revisions == if ok then old(revisions)[key := row] else old(revisions)
    {
      ok := key !in revisions && key.entryId in entries && entries[key.entryId].workspace == row.workspace
      && !HasContent(Snapshot(), row);
      if ok {
        revisions := revisions[key := row];
      }
    }

    /** Touches only an entry of the workspace that is still at its first revision. */
    method UpdateLifecycle(id: Id, workspace: string, l: Lifecycle) returns (ok: bool)
      modifies this`entries
      ensures var hit := id in old(entries) && old(entries)[id].workspace == workspace && old(entries)[id].currentRevision == 1;
              && (ok <==> (hit ==> References(old(Snapshot()), l.supersededBy) && (l.status.Superseded? ==> l.supersededBy.Some?)))
              && entries == if hit && ok then old(entries)[id := old(entries)[id].(lifecycle := l)] else old(entries)
    {
      if id in entries && entries[id].workspace == workspace && entries[id].currentRevision == 1 {
        ok := References(Snapshot(), l.supersededBy) && (l.status.Superseded? ==> l.supersededBy.Some?);
        if ok {
          entries := entries[id := entries[id].(lifecycle := l)];
        }
      } else {
        ok := true;
      }
    }

    method InsertLink(key: LinkKey, row: LinkRow) returns (ok: bool)
      modifies this`links
      ensures ok <==> key !in old(links) && key.fromId in entries && key.toId in entries
      ensures links == if ok then old(links)[key := row] else old(links)
    {
      ok := key !in links && key.fromId in entries && key.toId in entries;
      if ok {
        links := links[key := row];
      }
    }

    method InsertAudit(id: Id, row: AuditRow) returns (ok: bool)
      modifies this`audit
      ensures ok <==> id !in old(audit) && References(Snapshot(), row.entryId)
      ensures audit == if ok then old(audit)[id := row] else old(audit)
    {
      ok := id !in audit && References(Snapshot(), row.entryId);
      if ok {
        audit := audit[id := row];
      }
    }
  }

  // Planning.

  lemma FirstOfPrefix<T>(items: seq<T>, check: T -> Option<Conflict>, i: nat)
    requires i < |items|
    ensures First(items[..i + 1], check)
            == if First(items[..i], check).Some? then First(items[..i], check) else check(items[i])
  {
    assert items[..i + 1][..i] == items[..i];
  }

  lemma {:induction false} FirstStays<T>(items: seq<T>, check: T -> Option<Conflict>, i: nat)
    requires i <= |items| && First(items[..i], check).Some?
    ensures First(items, check) == First(items[..i], check)
    decreases |items| - i
  {
    if i == |items| {
      assert items[..i] == items;
    } else {
      FirstOfPrefix(items, check, i);
      FirstStays(items, check, i + 1);
    }
  }

  method PlanEntryImport(db: Database, es: seq<Record>, workspace: string) returns (r: Result<Plan, Conflict>)
    ensures var t := db.Snapshot();
            var first := First(es, (e: Record) => Collision(t, e, workspace));
            var second := First(es, (e: Record) => Mismatch(t, e, workspace));
            var c := if first.Some? then first else second;
            if c.Some? then r == Err(c.value) else r == Ok(Plan(NewEntries(t, es), |es| - |NewEntries(t, es)|))
  {
    var t := db.Snapshot();
    ghost var collision := (e: Record) => Collision(t, e, workspace);
    ghost var mismatch := (e: Record) => Mismatch(t, e, workspace);
    var newEntries: seq<Record> := [];
    var duplicates := 0;
    for i := 0 to |es|
      invariant First(es[..i], collision).None?
      invariant newEntries == NewEntries(t, es[..i]) && duplicates + |newEntries| == i
    {
      FirstOfPrefix(es, collision, i);
      assert es[..i + 1][..i] == es[..i];
      var c := Collision(t, es[i], workspace);
      if c.Some? {
        FirstStays(es, collision, i + 1);
        return Err(c.value);
      }
      if es[i].id in t.entries {
        duplicates := duplicates + 1;
      } else {
        newEntries := newEntries + [es[i]];
      }
    }
    assert es[..|es|] == es;
    for i := 0 to |es|
      invariant First(es[..i], mismatch).None?
    {
      FirstOfPrefix(es, mismatch, i);
      var c := Mismatch(t, es[i], workspace);
      if c.Some? {
        FirstStays(es, mismatch, i + 1);
        return Err(c.value);
      }
    }
    r := Ok(Plan(newEntries, duplicates));
  }

  method PlanLinks(db: Database, ls: seq<Link>) returns (r: Result<seq<Link>, Conflict>)
    ensures var t := db.Snapshot();
            var c := First(ls, (l: Link) => LinkMismatch(t, l));
            r == if c.Some? then Err(c.value) else Ok(NewLinks(t, ls))
  {
    var t := db.Snapshot();
    ghost var check := (l: Link) => LinkMismatch(t, l);
    var planned: seq<Link> := [];
    for i := 0 to |ls|
      invariant First(ls[..i], check).None? && planned == NewLinks(t, ls[..i])
    {
      FirstOfPrefix(ls, check, i);
      assert ls[..i + 1][..i] == ls[..i];
      var c := LinkMismatch(t, ls[i]);
      if c.Some? {
        FirstStays(ls, check, i + 1);
        return Err(c.value);
      }
      if ls[i].key !in t.links {
        planned := planned + [ls[i]];
      }
    }
    assert ls[..|ls|] == ls;
    r := Ok(planned);
  }

  method PlanAudit(db: Database, es: seq<AuditEvent>, workspace: string) returns (r: Result<seq<AuditEvent>, Conflict>)
    ensures var t := db.Snapshot();
            var c := First(es, (e: AuditEvent) => AuditMismatch(t, e, workspace));
            r == if c.Some? then Err(c.value) else Ok(NewAudit(t, es))
  {
    var t := db.Snapshot();
    ghost var check := (e: AuditEvent) => AuditMismatch(t, e, workspace);
    var planned: seq<AuditEvent> := [];
    for i := 0 to |es|
      invariant First(es[..i], check).None? && planned == NewAudit(t, es[..i])
    {
      FirstOfPrefix(es, check, i);
      assert es[..i + 1][..i] == es[..i];
      var c := AuditMismatch(t, es[i], workspace);
      if c.Some? {
        FirstStays(es, check, i + 1);
        return Err(c.value);
      }
      if es[i].eventId !in t.audit {
        planned := planned + [es[i]];
      }
    }
    assert es[..|es|] == es;
    r := Ok(planned);
  }
}
