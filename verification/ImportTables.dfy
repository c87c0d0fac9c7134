/** The tables an archive import writes, and what it plans to write. */
module ImportTables {
  import opened Wrappers
  import opened Supersession

  /** What the content hash of a revision covers; scope and provenance are canonical JSON. The hash is taken to be
      injective, so contents stand for their hashes. */
  datatype Content = Content(kind: string, title: string, body: string, summary: Option<string>, scope: string,
                             provenance: string, tags: seq<string>)

  datatype Status = Candidate | Verified | Superseded

  /** The columns of an entry that stay fixed while its lifecycle changes. */
  datatype Header = Header(trustLevel: string, confidence: real, createdBy: string, createdAt: string, updatedAt: string)

  datatype Lifecycle = Lifecycle(status: Status, supersededBy: Option<Id>, verifiedAt: Option<string>)

  datatype EntryRow = EntryRow(workspace: string, header: Header, lifecycle: Lifecycle, currentRevision: nat)

  datatype RevisionKey = RevisionKey(entryId: Id, revision: nat)

  datatype RevisionRow = RevisionRow(workspace: string, content: Content)

  datatype LinkKey = LinkKey(fromId: Id, toId: Id, relation: string)

  datatype LinkRow = LinkRow(createdAt: string, createdBy: string)

  datatype AuditRow = AuditRow(entryId: Option<Id>, workspace: string, operation: string, actor: string,
                               details: string, createdAt: string)

  datatype Tables = Tables(entries: map<Id, EntryRow>, revisions: map<RevisionKey, RevisionRow>,
                           links: map<LinkKey, LinkRow>, audit: map<Id, AuditRow>)

  // Integrity constraints of the schema.

  predicate References(t: Tables, id: Option<Id>) {
    id.None? || id.value in t.entries
  }

  ghost predicate EntriesConsistent(t: Tables) {
    forall id | id in t.entries ::
      && References(t, t.entries[id].lifecycle.supersededBy)
      && (t.entries[id].lifecycle.status.Superseded? ==> t.entries[id].lifecycle.supersededBy.Some?)
      && RevisionKey(id, t.entries[id].currentRevision) in t.revisions
  }

  ghost predicate RevisionsConsistent(t: Tables) {
    forall k | k in t.revisions :: k.entryId in t.entries && t.entries[k.entryId].workspace == t.revisions[k].workspace
  }

  /** The unique index over workspace and content hash. */
  ghost predicate ContentsUnique(t: Tables) {
    forall j, k | j in t.revisions && k in t.revisions && t.revisions[j] == t.revisions[k] :: j == k
  }

  ghost predicate LinksConsistent(t: Tables) {
    forall k | k in t.links :: k.fromId in t.entries && k.toId in t.entries
  }

  ghost predicate AuditConsistent(t: Tables) {
    forall e | e in t.audit :: References(t, t.audit[e].entryId)
  }

  ghost predicate Consistent(t: Tables) {
    EntriesConsistent(t) && RevisionsConsistent(t) && ContentsUnique(t) && LinksConsistent(t) && AuditConsistent(t)
  }

  predicate HasContent(t: Tables, row: RevisionRow) {
    exists k | k in t.revisions :: t.revisions[k] == row
  }

  // Records and archives.

  /** An entry as it is read back, and as an archive line describes it. */
  datatype Record = Record(id: Id, workspace: string, content: Content, header: Header, lifecycle: Lifecycle, revision: nat)

  /** The current revision of a stored entry, within one workspace. */
  function ReadEntry(t: Tables, workspace: string, id: Id): Option<Record> {
    if id !in t.entries || t.entries[id].workspace != workspace then None
    else
      var row := t.entries[id];
      var key := RevisionKey(id, row.currentRevision);
      if key !in t.revisions then None
      else Some(Record(id, workspace, t.revisions[key].content, row.header, row.lifecycle, row.currentRevision))
  }

  datatype Link = Link(key: LinkKey, row: LinkRow)

  datatype AuditEvent = AuditEvent(eventId: Id, entryId: Option<Id>, operation: string, actor: string,
                                   details: string, createdAt: string)

  datatype Archive = Archive(entries: seq<Record>, links: seq<Link>, audit: seq<AuditEvent>)

  function AuditRowOf(e: AuditEvent, workspace: string): AuditRow {
    AuditRow(e.entryId, workspace, e.operation, e.actor, e.details, e.createdAt)
  }

  predicate HasId(es: seq<Record>, id: Id) {
    exists i | 0 <= i < |es| :: es[i].id == id
  }

  predicate HasIdOption(es: seq<Record>, id: Option<Id>) {
    id.None? || HasId(es, id.value)
  }

  predicate DistinctEntries(es: seq<Record>) {
    forall i, j | 0 <= i < j < |es| :: es[i].id != es[j].id && es[i].content != es[j].content
  }

  predicate DistinctLinks(ls: seq<Link>) {
    forall i, j | 0 <= i < j < |ls| :: ls[i].key != ls[j].key
  }

  predicate DistinctAudit(es: seq<AuditEvent>) {
    forall i, j | 0 <= i < j < |es| :: es[i].eventId != es[j].eventId
  }

  /** Archives hold first revisions, and an entry is superseded exactly when it names a replacement. */
  predicate ValidEntry(e: Record, workspace: string) {
    && e.workspace == workspace && e.revision == 1
    && (e.lifecycle.status.Superseded? <==> e.lifecycle.supersededBy.Some?)
  }

  /** The archive's own checks, apart from the supersession walk. */
  predicate WellFormedArchive(a: Archive, workspace: string) {
    && (forall i | 0 <= i < |a.entries| :: ValidEntry(a.entries[i], workspace))
    && DistinctEntries(a.entries) && DistinctLinks(a.links) && DistinctAudit(a.audit)
    && (forall i | 0 <= i < |a.links| :: HasId(a.entries, a.links[i].key.fromId) && HasId(a.entries, a.links[i].key.toId))
    && (forall i | 0 <= i < |a.audit| :: HasIdOption(a.entries, a.audit[i].entryId))
  }

  /** The supersession reference of each entry. */
  function Supersessions(es: seq<Record>): seq<Reference> {
    seq(|es|, i requires 0 <= i < |es| => Reference(es[i].id, es[i].lifecycle.supersededBy))
  }

  /** What has been established before anything is planned. */
  ghost predicate ValidArchive(a: Archive, workspace: string) {
    && WellFormedArchive(a, workspace)
    && AllGrounded(Replacements(Supersessions(a.entries)), Ids(Supersessions(a.entries)))
  }

  // Planning.

  datatype Conflict =
    | OtherWorkspace(id: Id)
    | DifferentContent(id: Id)
    | ContentOfAnotherEntry
    | DifferentMetadata(id: Id)
    | LinkConflict
    | AuditConflict(id: Id)
    | StoredIntegrity

  /** A revision of this very entry holds the content. */
  predicate HasOwnContent(t: Tables, id: Id, row: RevisionRow) {
    exists k | k in t.revisions :: k.entryId == id && t.revisions[k] == row
  }

  /** First pass over an entry: does it collide with a stored one? */
  function Collision(t: Tables, e: Record, workspace: string): Option<Conflict> {
    if e.id in t.entries then
      if t.entries[e.id].workspace != workspace then Some(OtherWorkspace(e.id))
      else
        var existing := ReadEntry(t, workspace, e.id);
        if existing.None? then Some(StoredIntegrity)
        else if existing.value.content != e.content then Some(DifferentContent(e.id)) else None
    else if HasContent(t, RevisionRow(workspace, e.content)) then
      Some(if HasOwnContent(t, e.id, RevisionRow(workspace, e.content)) then StoredIntegrity else ContentOfAnotherEntry)
    else None
  }

  /** Second pass: an entry that is already stored must match in every field. */
  function Mismatch(t: Tables, e: Record, workspace: string): Option<Conflict> {
    if e.id in t.entries && ReadEntry(t, workspace, e.id) != Some(e) then Some(DifferentMetadata(e.id)) else None
  }

  function LinkMismatch(t: Tables, l: Link): Option<Conflict> {
    if l.key in t.links && t.links[l.key] != l.row then Some(LinkConflict) else None
  }

  function AuditMismatch(t: Tables, e: AuditEvent, workspace: string): Option<Conflict> {
    if e.eventId in t.audit && t.audit[e.eventId] != AuditRowOf(e, workspace) then Some(AuditConflict(e.eventId)) else None
  }

  /** The first conflict that a check finds along a list. */
  ghost function First<T>(items: seq<T>, check: T -> Option<Conflict>): Option<Conflict> {
    if items == [] then None
    else
      var before := First(items[..|items| - 1], check);
      if before.Some? then before else check(items[|items| - 1])
  }

  ghost function PlanConflict(t: Tables, a: Archive, workspace: string): Option<Conflict> {
    var first := First(a.entries, (e: Record) => Collision(t, e, workspace));
    var second := First(a.entries, (e: Record) => Mismatch(t, e, workspace));
    var third := First(a.links, (l: Link) => LinkMismatch(t, l));
    var fourth := First(a.audit, (e: AuditEvent) => AuditMismatch(t, e, workspace));
    if first.Some? then first else if second.Some? then second else if third.Some? then third else fourth
  }

  function NewEntries(t: Tables, es: seq<Record>): (r: seq<Record>)
    ensures |r| <= |es|
  {
    if es == [] then []
    else
      var e := es[|es| - 1];
      NewEntries(t, es[..|es| - 1]) + if e.id in t.entries then [] else [e]
  }

  function NewLinks(t: Tables, ls: seq<Link>): seq<Link> {
    if ls == [] then []
    else
      var l := ls[|ls| - 1];
      NewLinks(t, ls[..|ls| - 1]) + if l.key in t.links then [] else [l]
  }

  function NewAudit(t: Tables, es: seq<AuditEvent>): seq<AuditEvent> {
    if es == [] then []
    else
      var e := es[|es| - 1];
      NewAudit(t, es[..|es| - 1]) + if e.eventId in t.audit then [] else [e]
  }

  // Writing.

  const DRAFT := Lifecycle(Candidate, None, None)

  function RowOf(e: Record, l: Lifecycle): EntryRow {
    EntryRow(e.workspace, e.header, l, 1)
  }

  /** Rows for new entries while they are drafts. */
  function Drafts(es: seq<Record>): map<Id, EntryRow> {
    if es == [] then map[]
    else var e := es[|es| - 1]; Drafts(es[..|es| - 1])[e.id := RowOf(e, DRAFT)]
  }

  /** Rows for new entries with the lifecycle of the archive. */
  function Finals(es: seq<Record>): map<Id, EntryRow> {
    if es == [] then map[]
    else var e := es[|es| - 1]; Finals(es[..|es| - 1])[e.id := RowOf(e, e.lifecycle)]
  }

  function Revisions(es: seq<Record>): map<RevisionKey, RevisionRow> {
    if es == [] then map[]
    else var e := es[|es| - 1]; Revisions(es[..|es| - 1])[RevisionKey(e.id, 1) := RevisionRow(e.workspace, e.content)]
  }

  function LinkRows(ls: seq<Link>): map<LinkKey, LinkRow> {
    if ls == [] then map[]
    else var l := ls[|ls| - 1]; LinkRows(ls[..|ls| - 1])[l.key := l.row]
  }

  function AuditRows(es: seq<AuditEvent>, workspace: string): map<Id, AuditRow> {
    if es == [] then map[]
    else var e := es[|es| - 1]; AuditRows(es[..|es| - 1], workspace)[e.eventId := AuditRowOf(e, workspace)]
  }

  /** The tables after the whole archive has been written directly, conflicts aside. */
  function Imported(t: Tables, a: Archive, workspace: string): Tables {
    var es := NewEntries(t, a.entries);
    Tables(t.entries + Finals(es), t.revisions + Revisions(es),
           t.links + LinkRows(NewLinks(t, a.links)), t.audit + AuditRows(NewAudit(t, a.audit), workspace))
  }
}
