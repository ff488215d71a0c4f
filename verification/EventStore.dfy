/**
 The event store: imports, checks with their replaceable previews, and tracked documents.
 Models src/wbcz/event_store.py, EventStore, and src/wbcz/status_verifier.py, DocumentTracker.

 Tables are maps, transactions are atomic methods, timestamps are dropped; the order of audit
 entries is kept.
 */
module EventStore {
  import opened Common
  import opened Events

  datatype ParsedRow = ParsedRow(rowNumber: int, event: Event)
  datatype RowIssue = RowIssue(rowNumber: int, message: string)
  datatype ParsedWorkbook = ParsedWorkbook(rows: seq<ParsedRow>, issues: seq<RowIssue>)

  datatype ImportState = IMPORTED | PARTIAL
  datatype ImportEntry = ImportEntry(filename: string, state: ImportState, newEvents: nat, duplicateEvents: nat,
                                     rejectedRows: nat)
  datatype ImportReport = ImportReport(fingerprint: string, newEvents: nat, duplicateEvents: nat, rejectedRows: nat,
                                       repeatedFile: bool)
  datatype RowEntry = Imported(eventId: EventId) | Rejected(message: string)

  datatype Decision = READY_TO_WITHDRAW | READY_TO_RETURN | ALREADY_DONE | NO_ACTION | MANUAL_REVIEW | ERROR
  datatype Outcome = Outcome(decision: Decision, reason: string, error: Option<string>)

  /** What was read of the KI when it was checked. */
  datatype KiState = KiState(
    status: string, statusEx: Option<string>, withdrawReason: Option<string>, ownerInn: Option<string>,
    productGroup: Option<string>)

  datatype Check = Check(eventId: EventId, source: string, snapshot: Option<KiState>, outcome: Outcome)

  datatype DocumentStatus = ACCEPTED | PROCESSING | SUCCEEDED | REJECTED | VERIFICATION_ERROR
  datatype DocumentReport = DocumentReport(status: DocumentStatus, error: Option<string>)
  datatype Document = Document(eventId: EventId, report: DocumentReport)

  datatype Action =
    | IMPORT_REPEATED | EVENT_IMPORTED | ROW_REJECTED | IMPORT_COMPLETED | DRY_RUN_CHECKED
    | DOCUMENT_REGISTERED | DOCUMENT_STATUS_OBSERVED
  datatype Subject = File(fingerprint: string) | EventSubject(eventId: EventId) | DocumentSubject(documentId: string)
  datatype Audit = Audit(action: Action, subject: Subject)

  datatype StoreError =
    | IntegrityError | EmptyDocumentId | DocumentOfAnotherEvent | DocumentNotFound | TerminalStatusChange

  predicate Terminal(status: DocumentStatus) {
    status in {SUCCEEDED, REJECTED}
  }

  // ---------- Imports, as functions of the tables ----------

  function RowIds(digest: DigestFunction, rows: seq<ParsedRow>): set<EventId> {
    set i | 0 <= i < |rows| :: IdOf(digest, rows[i].event)
  }

  /** INSERT ... ON CONFLICT DO NOTHING, row after row. */
  function InsertRows(digest: DigestFunction, events: Table, rows: seq<ParsedRow>): Table {
    if rows == [] then events
    else
      var before := InsertRows(digest, events, rows[..|rows| - 1]);
      var event := rows[|rows| - 1].event;
      var id := IdOf(digest, event);
      if id in before then before else before[id := ToDict(event)]
  }

  /** EVENT_IMPORTED once for every row that inserted its event. */
  function RowAudit(digest: DigestFunction, events: Table, rows: seq<ParsedRow>): seq<Audit> {
    if rows == [] then []
    else
      var n := |rows| - 1;
      var id := IdOf(digest, rows[n].event);
      RowAudit(digest, events, rows[..n])
      + if id in InsertRows(digest, events, rows[..n]) then [] else [Audit(EVENT_IMPORTED, EventSubject(id))]
  }

  lemma RowStep(digest: DigestFunction, events: Table, rows: seq<ParsedRow>, n: nat)
    requires n < |rows|
    ensures var before, event := InsertRows(digest, events, rows[..n]), rows[n].event;
            var id := IdOf(digest, event);
            && InsertRows(digest, events, rows[..n + 1]) ==
              (if id in before then before else before[id := ToDict(event)])
            && RowAudit(digest, events, rows[..n + 1]) ==
               RowAudit(digest, events, rows[..n])
               + if id in before then [] else [Audit(EVENT_IMPORTED, EventSubject(id))]
  {
    hide IdOf, ToDict;
    assert rows[..n + 1][..n] == rows[..n];
  }

  lemma NoRows(digest: DigestFunction, events: Table, rows: seq<ParsedRow>)
    requires rows == []
    ensures InsertRows(digest, events, rows) == events && RowAudit(digest, events, rows) == []
  {
  }

  ghost predicate Identified(digest: DigestFunction, events: Table) {
    forall id :: id in events ==> digest(events[id]) == id
  }

  /** The union of the table and the rows, each id with its own content. */
  lemma {:induction false} InsertRowsIsUnion(digest: DigestFunction, events: Table, rows: seq<ParsedRow>)
    requires Injective(digest) && Identified(digest, events)
    ensures var after := InsertRows(digest, events, rows);
            && after.Keys == events.Keys + RowIds(digest, rows) && Identified(digest, after)
            && (forall id :: id in events ==> after[id] == events[id])
  {
    if rows != [] {
      var n := |rows| - 1;
      InsertRowsIsUnion(digest, events, rows[..n]);
      assert RowIds(digest, rows) == RowIds(digest, rows[..n]) + {IdOf(digest, rows[n].event)};
    }
  }

  /** Two tables with the same ids are the same table. */
  lemma TableIsItsIds(digest: DigestFunction, a: Table, b: Table)
    requires Injective(digest) && Identified(digest, a) && Identified(digest, b) && a.Keys == b.Keys
    ensures a == b
  {
    forall id | id in a ensures a[id] == b[id] {
      assert digest(a[id]) == digest(b[id]);
    }
  }

  type Contents = map<string, ParsedWorkbook>

  /** All event ids of all imported workbooks. */
  function ContentIds(digest: DigestFunction, contents: Contents): set<EventId> {
    set fp, i | fp in contents && 0 <= i < |contents[fp].rows| :: IdOf(digest, contents[fp].rows[i].event)
  }

  ghost predicate EventsOk(digest: DigestFunction, events: Table, contents: Contents) {
    Identified(digest, events) && events.Keys == ContentIds(digest, contents)
  }

  lemma ImportKeepsEvents(digest: DigestFunction, events: Table, contents: Contents, fp: string, parsed: ParsedWorkbook)
    requires Injective(digest) && EventsOk(digest, events, contents) && fp !in contents
    ensures EventsOk(digest, InsertRows(digest, events, parsed.rows), contents[fp := parsed])
  {
    InsertRowsIsUnion(digest, events, parsed.rows);
    var more := contents[fp := parsed];
    forall id
      ensures id in ContentIds(digest, more) <==>
                id in ContentIds(digest, contents) || id in RowIds(digest, parsed.rows)
    {
      if id in ContentIds(digest, contents) {
        var f, i :| f in contents && 0 <= i < |contents[f].rows| && IdOf(digest, contents[f].rows[i].event) == id;
        assert more[f] == contents[f];
      }
      if id in RowIds(digest, parsed.rows) {
        var i :| 0 <= i < |parsed.rows| && IdOf(digest, parsed.rows[i].event) == id;
        assert more[fp].rows[i] == parsed.rows[i];
      }
    }
  }

  function SumNew(reports: seq<ImportReport>): nat {
    if reports == [] then 0 else SumNew(reports[..|reports| - 1]) + reports[|reports| - 1].newEvents
  }

  // ---------- Checks and previews ----------

  /** A preview is the latest check of its own event, made on the history the KI still has. */
  ghost predicate PreviewsOk(previews: map<EventId, nat>, checks: map<nat, Check>, seenAt: map<nat, set<EventId>>,
                             events: Table)
  {
    forall e :: e in previews ==>
      && e in events && previews[e] in checks && checks[previews[e]].eventId == e
      && (forall c :: c in checks && checks[c].eventId == e ==> c <= previews[e])
      && previews[e] in seenAt && seenAt[previews[e]] == KiIds(events, events[e].kiz)
  }

  ghost predicate ChecksOk(checks: map<nat, Check>, nextCheckId: nat, events: Table) {
    forall c :: c in checks ==> c < nextCheckId && checks[c].eventId in events
  }

  /** DELETE FROM previews for every event of this KI. */
  function DropPreviews(previews: map<EventId, nat>, events: Table, kiz: string): map<EventId, nat> {
    map e | e in previews && !(e in events && events[e].kiz == kiz) :: previews[e]
  }

  lemma NewEventKeepsPreviews(previews: map<EventId, nat>, checks: map<nat, Check>, seenAt: map<nat, set<EventId>>,
                              events: Table, id: EventId, payload: Payload)
    requires PreviewsOk(previews, checks, seenAt, events) && id !in events
    ensures var more := events[id := payload];
            PreviewsOk(DropPreviews(previews, more, payload.kiz), checks, seenAt, more)
  {
    var more := events[id := payload];
    var kept := DropPreviews(previews, more, payload.kiz);
    forall e | e in kept ensures KiIds(more, more[e].kiz) == KiIds(events, events[e].kiz) && more[e] == events[e] {
      assert e in previews;
    }
  }

  lemma NewEventKeepsChecks(checks: map<nat, Check>, nextCheckId: nat, events: Table, id: EventId, payload: Payload)
    requires ChecksOk(checks, nextCheckId, events)
    ensures ChecksOk(checks, nextCheckId, events[id := payload])
  {
  }

  /** A new check replaces the preview of its event and touches no other. */
  lemma NewCheckKeepsPreviews(previews: map<EventId, nat>, checks: map<nat, Check>, seenAt: map<nat, set<EventId>>,
                              events: Table, next: nat, check: Check)
    requires PreviewsOk(previews, checks, seenAt, events) && ChecksOk(checks, next, events) && check.eventId in events
    ensures PreviewsOk(previews[check.eventId := next], checks[next := check],
                       seenAt[next := KiIds(events, events[check.eventId].kiz)], events)
  {
  }

  /** The previews an import leaves: those of KIs that gained no event. */
  ghost predicate Survives(previews: map<EventId, nat>, before: Table, after: Table, e: EventId) {
    e in previews && e in after && forall id :: id in after && id !in before ==> after[id].kiz != after[e].kiz
  }

  ghost predicate PreviewsAfterImport(previews: map<EventId, nat>, left: map<EventId, nat>, before: Table,
                                      after: Table)
  {
    forall e :: (e in left <==> Survives(previews, before, after, e)) && (e in left ==> left[e] == previews[e])
  }

  lemma OneMoreRow(previews: map<EventId, nat>, left: map<EventId, nat>, before: Table, after: Table, id: EventId,
                   payload: Payload)
    requires PreviewsAfterImport(previews, left, before, after) && id !in after
    requires before.Keys <= after.Keys && previews.Keys <= before.Keys
    ensures var more := after[id := payload];
            PreviewsAfterImport(previews, DropPreviews(left, more, payload.kiz), before, more)
  {
    var more := after[id := payload];
    var fewer := DropPreviews(left, more, payload.kiz);
    forall e ensures e in fewer <==> Survives(previews, before, more, e) {
      if e in fewer {
        assert Survives(previews, before, after, e);
      }
      if Survives(previews, before, more, e) {
        assert more[id].kiz != more[e].kiz;
        forall x | x in after && x !in before ensures after[x].kiz != after[e].kiz {
          assert more[x] == after[x];
        }
        assert Survives(previews, before, after, e);
      }
    }
  }

  // ---------- Documents ----------

  /** The observed statuses of one document, oldest first. */
  function HistoryOf(history: seq<(string, DocumentReport)>, id: string): seq<DocumentReport> {
    if history == [] then []
    else
      var n := |history| - 1;
      HistoryOf(history[..n], id) + if history[n].0 == id then [history[n].1] else []
  }

  lemma HistorySnoc(history: seq<(string, DocumentReport)>, id: string, report: DocumentReport, other: string)
    ensures HistoryOf(history + [(id, report)], other) ==
              HistoryOf(history, other) + if id == other then [report] else []
  {
    assert (history + [(id, report)])[..|history|] == history;
  }

  /** Starts with ACCEPTED, ends with the current status and error, and is terminal at most at the end. */
  ghost predicate DocumentStory(story: seq<DocumentReport>, current: DocumentReport) {
    && story != [] && story[0] == DocumentReport(ACCEPTED, None) && story[|story| - 1] == current
    && forall k :: 0 <= k < |story| - 1 ==> !Terminal(story[k].status)
  }

  ghost predicate DocumentsOk(documents: map<string, Document>, history: seq<(string, DocumentReport)>) {
    forall id ::
      if id in documents then DocumentStory(HistoryOf(history, id), documents[id].report)
      else HistoryOf(history, id) == []
  }

  lemma ObservedKeepsDocuments(documents: map<string, Document>, history: seq<(string, DocumentReport)>, id: string,
                               document: Document)
    requires DocumentsOk(documents, history)
    requires if id in documents then !Terminal(documents[id].report.status)
             else document.report == DocumentReport(ACCEPTED, None)
    ensures DocumentsOk(documents[id := document], history + [(id, document.report)])
  {
    forall other { HistorySnoc(history, id, document.report, other); }
  }

  lemma NothingImported(previews: map<EventId, nat>, checks: map<nat, Check>, seenAt: map<nat, set<EventId>>,
                        events: Table)
    requires PreviewsOk(previews, checks, seenAt, events)
    ensures PreviewsAfterImport(previews, previews, events, events)
  {
  }

  lemma PreviewKeysAreEvents(previews: map<EventId, nat>, checks: map<nat, Check>, seenAt: map<nat, set<EventId>>,
                             events: Table)
    requires PreviewsOk(previews, checks, seenAt, events)
    ensures previews.Keys <= events.Keys
  {
    forall e | e in previews ensures e in events {
    }
  }

  lemma SumSnoc(reports: seq<ImportReport>, report: ImportReport)
    ensures SumNew(reports + [report]) == SumNew(reports) + report.newEvents
  {
    assert (reports + [report])[..|reports|] == reports;
  }

  // ---------- The database and its invariant ----------

  datatype Database = Database(
    imports: map<string, ImportEntry>,
    events: Table,
    importRows: map<string, map<int, RowEntry>>,      // by fingerprint, then row number
    checks: map<nat, Check>,
    nextCheckId: nat,
    previews: map<EventId, nat>,
    documents: map<string, Document>,
    documentHistory: seq<(string, DocumentReport)>,
    auditLog: seq<Audit>)

  /** What happened: the workbook behind each fingerprint, the history each check saw, every report returned. */
  datatype Trail = Trail(contents: Contents, seenAt: map<nat, set<EventId>>, reports: seq<ImportReport>)

  /** Every import accounts for all rows and issues of its workbook, in its counts and in its row table. */
  ghost predicate ImportsOk(digest: DigestFunction, imports: map<string, ImportEntry>,
                            importRows: map<string, map<int, RowEntry>>, contents: Contents)
  {
    && imports.Keys == importRows.Keys == contents.Keys
    && forall f :: f in imports ==>
         && imports[f].newEvents + imports[f].duplicateEvents == |contents[f].rows|
         && imports[f].rejectedRows == |contents[f].issues|
         && (imports[f].state == PARTIAL <==> contents[f].issues != [])
         && Records(importRows[f], Entries(digest, contents[f]))
  }

  ghost predicate DatabaseOk(digest: DigestFunction, db: Database, trail: Trail) {
    && EventsOk(digest, db.events, trail.contents)
    && ImportsOk(digest, db.imports, db.importRows, trail.contents)
    && |db.events| == SumNew(trail.reports)
    && ChecksOk(db.checks, db.nextCheckId, db.events)
    && PreviewsOk(db.previews, db.checks, trail.seenAt, db.events)
    && DocumentsOk(db.documents, db.documentHistory)
    && (forall d :: d in db.documents ==> db.documents[d].eventId in db.events)
  }

  const EmptyDatabase := Database(map[], map[], map[], map[], 1, map[], map[], [], [])

  lemma EmptyIsOk(digest: DigestFunction)
    ensures DatabaseOk(digest, EmptyDatabase, Trail(map[], map[], []))
  {
  }

  /** The rows import_workbook writes to import_rows: imported ones, then rejected ones. */
  function Entries(digest: DigestFunction, parsed: ParsedWorkbook): (entries: seq<(int, RowEntry)>)
    ensures |entries| == |parsed.rows| + |parsed.issues|
  {
    seq(|parsed.rows|, i requires 0 <= i < |parsed.rows| =>
          (parsed.rows[i].rowNumber, Imported(IdOf(digest, parsed.rows[i].event))))
    + seq(|parsed.issues|, i requires 0 <= i < |parsed.issues| =>
            (parsed.issues[i].rowNumber, Rejected(parsed.issues[i].message)))
  }

  /** The primary key (fingerprint, row_number) accepts them. */
  ghost predicate DistinctNumbers(entries: seq<(int, RowEntry)>) {
    forall i, j :: 0 <= i < j < |entries| ==> entries[i].0 != entries[j].0
  }

  ghost predicate Records(table: map<int, RowEntry>, entries: seq<(int, RowEntry)>) {
    (forall i :: 0 <= i < |entries| ==> entries[i].0 in table && table[entries[i].0] == entries[i].1)
    && (forall n :: n in table ==> exists i :: 0 <= i < |entries| && entries[i].0 == n)
  }

  function RejectionAudit(fingerprint: string, issues: nat): seq<Audit> {
    seq(issues, _ => Audit(ROW_REJECTED, File(fingerprint)))
  }

  /** The row table names the event of every parsed row and the message of every issue, and nothing else. */
  ghost predicate TellsRows(digest: DigestFunction, table: map<int, RowEntry>, events: Table, parsed: ParsedWorkbook) {
    && (forall i :: 0 <= i < |parsed.rows| ==>
          var row := parsed.rows[i];
          && row.rowNumber in table && table[row.rowNumber].Imported?
          && table[row.rowNumber].eventId in events && events[table[row.rowNumber].eventId] == ToDict(row.event))
    && (forall i :: 0 <= i < |parsed.issues| ==>
          && parsed.issues[i].rowNumber in table
          && table[parsed.issues[i].rowNumber] == Rejected(parsed.issues[i].message))
    && (forall n :: n in table ==>
          || (exists i :: 0 <= i < |parsed.rows| && parsed.rows[i].rowNumber == n)
          || (exists i :: 0 <= i < |parsed.issues| && parsed.issues[i].rowNumber == n))
  }

  lemma RowIsTold(digest: DigestFunction, table: map<int, RowEntry>, events: Table, parsed: ParsedWorkbook, i: nat)
    requires Injective(digest) && Identified(digest, events) && i < |parsed.rows|
    requires Records(table, Entries(digest, parsed))
    ensures var row, after := parsed.rows[i], InsertRows(digest, events, parsed.rows);
            && row.rowNumber in table && table[row.rowNumber] == Imported(IdOf(digest, row.event))
            && IdOf(digest, row.event) in after && after[IdOf(digest, row.event)] == ToDict(row.event)
  {
    hide InsertRows, ToDict;
    var row, after := parsed.rows[i], InsertRows(digest, events, parsed.rows);
    InsertRowsIsUnion(digest, events, parsed.rows);
    assert Entries(digest, parsed)[i] == (row.rowNumber, Imported(IdOf(digest, row.event)));
    assert IdOf(digest, row.event) in RowIds(digest, parsed.rows);
    assert digest(after[IdOf(digest, row.event)]) == digest(ToDict(row.event));
  }

  lemma RecordsTellRows(digest: DigestFunction, table: map<int, RowEntry>, events: Table, rows: seq<ParsedRow>,
                        parsed: ParsedWorkbook)
    requires Injective(digest) && Identified(digest, events) && rows == parsed.rows
    requires Records(table, Entries(digest, parsed))
    ensures TellsRows(digest, table, InsertRows(digest, events, rows), parsed)
  {
    hide InsertRows, IdOf, ToDict, Identified;
    var entries := Entries(digest, parsed);
    forall i | 0 <= i < |rows|
      ensures var row, after := parsed.rows[i], InsertRows(digest, events, rows);
              && row.rowNumber in table && table[row.rowNumber] == Imported(IdOf(digest, row.event))
              && IdOf(digest, row.event) in after && after[IdOf(digest, row.event)] == ToDict(row.event)
    {
      RowIsTold(digest, table, events, parsed, i);
    }
    forall i | 0 <= i < |parsed.issues|
      ensures parsed.issues[i].rowNumber in table
              && table[parsed.issues[i].rowNumber] == Rejected(parsed.issues[i].message)
    {
      assert entries[|rows| + i] == (parsed.issues[i].rowNumber, Rejected(parsed.issues[i].message));
    }
    forall n | n in table
      ensures (exists i :: 0 <= i < |rows| && rows[i].rowNumber == n)
              || (exists i :: 0 <= i < |parsed.issues| && parsed.issues[i].rowNumber == n)
    {
      var i :| 0 <= i < |entries| && entries[i].0 == n;
      if i < |rows| {
        assert rows[i].rowNumber == n;
      } else {
        assert parsed.issues[i - |rows|].rowNumber == n;
      }
    }
  }

  /** The audit of the row loop: every new event once, in the order of insertion, and nothing else. */
  lemma {:induction false} RowAuditLists(digest: DigestFunction, events: Table, rows: seq<ParsedRow>)
    ensures var audit, after := RowAudit(digest, events, rows), InsertRows(digest, events, rows);
            && events.Keys <= after.Keys && |audit| == |after| - |events|
            && (forall k :: 0 <= k < |audit| ==>
                  audit[k].action == EVENT_IMPORTED && audit[k].subject.EventSubject?
                  && audit[k].subject.eventId in after && audit[k].subject.eventId !in events)
            && (forall k, l :: 0 <= k < l < |audit| ==> audit[k] != audit[l])
            && (forall id :: id in after && id !in events ==> Audit(EVENT_IMPORTED, EventSubject(id)) in audit)
  {
    hide IdOf, ToDict;
    if rows != [] {
      var n := |rows| - 1;
      RowAuditLists(digest, events, rows[..n]);
    }
  }

  /** The committed transaction of a first import. */
  ghost predicate ImportedInto(digest: DigestFunction, before: Database, after: Database, fingerprint: string,
                               filename: string, parsed: ParsedWorkbook, report: ImportReport)
  {
    var inserted := |after.events| - |before.events|;
    && after.events == InsertRows(digest, before.events, parsed.rows) && 0 <= inserted <= |parsed.rows|
    && report == ImportReport(fingerprint, inserted, |parsed.rows| - inserted, |parsed.issues|, false)
    && after.imports == before.imports[fingerprint :=
         ImportEntry(filename, if parsed.issues != [] then PARTIAL else IMPORTED,
                     report.newEvents, report.duplicateEvents, |parsed.issues|)]
    && (exists rows ::
          Records(rows, Entries(digest, parsed)) && after.importRows == before.importRows[fingerprint := rows])
    && PreviewsAfterImport(before.previews, after.previews, before.events, after.events)
    && after.auditLog == before.auditLog + RowAudit(digest, before.events, parsed.rows)
                         + RejectionAudit(fingerprint, |parsed.issues|) + [Audit(IMPORT_COMPLETED, File(fingerprint))]
    && after == before.(imports := after.imports, events := after.events, importRows := after.importRows,
                        previews := after.previews, auditLog := after.auditLog)
  }

  lemma ImportKeepsDatabase(digest: DigestFunction, before: Database, after: Database, trail: Trail,
                            fingerprint: string, filename: string, parsed: ParsedWorkbook, report: ImportReport)
    requires Injective(digest) && DatabaseOk(digest, before, trail) && fingerprint !in before.imports
    requires ImportedInto(digest, before, after, fingerprint, filename, parsed, report)
    requires ChecksOk(after.checks, after.nextCheckId, after.events)
             && PreviewsOk(after.previews, after.checks, trail.seenAt, after.events)
    ensures DatabaseOk(digest, after,
                       trail.(contents := trail.contents[fingerprint := parsed], reports := trail.reports + [report]))
  {
    hide PreviewsOk, ChecksOk, PreviewsAfterImport, DocumentsOk, EventsOk, InsertRows, RowAudit, Entries, Records;
    ImportsStay(digest, before, after, trail.contents, fingerprint, filename, parsed, report);
    hide SumNew, ImportsOk;
    ImportKeepsEvents(digest, before.events, trail.contents, fingerprint, parsed);
    EventsStay(digest, before.events, trail.contents, parsed.rows);
    SumSnoc(trail.reports, report);
  }

  lemma ImportsStay(digest: DigestFunction, before: Database, after: Database, contents: Contents, fingerprint: string,
                    filename: string, parsed: ParsedWorkbook, report: ImportReport)
    requires ImportsOk(digest, before.imports, before.importRows, contents) && fingerprint !in before.imports
    requires ImportedInto(digest, before, after, fingerprint, filename, parsed, report)
    ensures ImportsOk(digest, after.imports, after.importRows, contents[fingerprint := parsed])
  {
    hide Records, Entries, InsertRows, RowAudit, PreviewsAfterImport;
  }

  lemma ImportsOfDatabase(digest: DigestFunction, db: Database, trail: Trail)
    requires DatabaseOk(digest, db, trail)
    ensures db.imports.Keys == trail.contents.Keys
  {
    hide Records, EventsOk, ChecksOk, PreviewsOk, DocumentsOk;
  }

  lemma EventsStay(digest: DigestFunction, events: Table, contents: Contents, rows: seq<ParsedRow>)
    requires Injective(digest) && EventsOk(digest, events, contents)
    ensures events.Keys <= InsertRows(digest, events, rows).Keys
    ensures forall id :: id in events ==> InsertRows(digest, events, rows)[id] == events[id]
  {
    InsertRowsIsUnion(digest, events, rows);
  }

  lemma RepeatKeepsDatabase(digest: DigestFunction, db: Database, trail: Trail, entry: Audit, report: ImportReport)
    requires DatabaseOk(digest, db, trail) && report.newEvents == 0
    ensures DatabaseOk(digest, db.(auditLog := db.auditLog + [entry]), trail.(reports := trail.reports + [report]))
  {
    hide PreviewsOk, ChecksOk, DocumentsOk, EventsOk, ImportsOk;
    SumSnoc(trail.reports, report);
  }

  function WithCheck(db: Database, check: Check): Database {
    db.(checks := db.checks[db.nextCheckId := check], nextCheckId := db.nextCheckId + 1,
        previews := db.previews[check.eventId := db.nextCheckId],
        auditLog := db.auditLog + [Audit(DRY_RUN_CHECKED, EventSubject(check.eventId))])
  }

  function Seen(db: Database, trail: Trail, eventId: EventId): Trail
    requires eventId in db.events
  {
    trail.(seenAt := trail.seenAt[db.nextCheckId := KiIds(db.events, db.events[eventId].kiz)])
  }

  lemma CheckKeepsDatabase(digest: DigestFunction, db: Database, trail: Trail, check: Check)
    requires DatabaseOk(digest, db, trail) && check.eventId in db.events
    ensures DatabaseOk(digest, WithCheck(db, check), Seen(db, trail, check.eventId))
  {
    hide PreviewsOk, ChecksOk, DocumentsOk, EventsOk, ImportsOk;
    NewCheckKeepsPreviews(db.previews, db.checks, trail.seenAt, db.events, db.nextCheckId, check);
    NewCheckKeepsChecks(db.checks, db.nextCheckId, db.events, check);
  }

  lemma NewCheckKeepsChecks(checks: map<nat, Check>, nextCheckId: nat, events: Table, check: Check)
    requires ChecksOk(checks, nextCheckId, events) && check.eventId in events
    ensures ChecksOk(checks[nextCheckId := check], nextCheckId + 1, events)
  {
  }

  function WithObserved(db: Database, id: string, document: Document, action: Action): Database {
    db.(documents := db.documents[id := document], documentHistory := db.documentHistory + [(id, document.report)],
        auditLog := db.auditLog + [Audit(action, DocumentSubject(id))])
  }

  lemma ObservedKeepsDatabase(digest: DigestFunction, db: Database, trail: Trail, id: string, document: Document,
                              action: Action)
    requires DatabaseOk(digest, db, trail) && document.eventId in db.events
    requires if id in db.documents then !Terminal(db.documents[id].report.status)
             else document.report == DocumentReport(ACCEPTED, None)
    ensures DatabaseOk(digest, WithObserved(db, id, document, action), trail)
  {
    hide PreviewsOk, ChecksOk, DocumentsOk, EventsOk, ImportsOk;
    ObservedKeepsDocuments(db.documents, db.documentHistory, id, document);
  }

  /** Observing a document the store has, whatever is reported of it. */
  lemma ReportKeepsDatabase(digest: DigestFunction, db: Database, trail: Trail, id: string, report: DocumentReport)
    requires DatabaseOk(digest, db, trail) && id in db.documents && !Terminal(db.documents[id].report.status)
    ensures var observed := db.documents[id].(report := report);
            DatabaseOk(digest, WithObserved(db, id, observed, DOCUMENT_STATUS_OBSERVED), trail)
  {
    hide PreviewsOk, ChecksOk, DocumentsOk, EventsOk, ImportsOk, Terminal, WithObserved;
    ObservedKeepsDatabase(digest, db, trail, id, db.documents[id].(report := report), DOCUMENT_STATUS_OBSERVED);
  }

  lemma FreshCheckId(digest: DigestFunction, db: Database, trail: Trail)
    requires DatabaseOk(digest, db, trail)
    ensures db.nextCheckId !in db.checks
  {
    hide PreviewsOk, DocumentsOk, EventsOk, ImportsOk;
  }

  // ---------- The store ----------

  class EventStore {
    const digest: DigestFunction
    var db: Database
    ghost var trail: Trail

    constructor (digest: DigestFunction)
      requires Injective(digest)
      ensures Valid() && this.digest == digest && db == EmptyDatabase && trail == Trail(map[], map[], [])
    {
      this.digest, db, trail := digest, EmptyDatabase, Trail(map[], map[], []);
      new;
      EmptyIsOk(digest);
    }

    ghost predicate Valid()
      reads this
    {
      Injective(digest) && DatabaseOk(digest, db, trail)
    }

    method ExistingImport(fingerprint: string) returns (r: Option<ImportReport>)
      ensures r.Some? <==> fingerprint in db.imports
      ensures r.Some? ==> r.value == ImportReport(fingerprint, 0,
                db.imports[fingerprint].newEvents + db.imports[fingerprint].duplicateEvents,
                db.imports[fingerprint].rejectedRows, true)
      ensures Valid() && r.Some? ==>
                && fingerprint in trail.contents
                && r.value == ImportReport(fingerprint, 0, |trail.contents[fingerprint].rows|,
                                           |trail.contents[fingerprint].issues|, true)
    {
      hide Records, EventsOk, ChecksOk, PreviewsOk, DocumentsOk;
      if fingerprint !in db.imports {
        return None;
      }
      var entry := db.imports[fingerprint];
      return Some(ImportReport(fingerprint, 0, entry.newEvents + entry.duplicateEvents, entry.rejectedRows, true));
    }

    /** The loop over the parsed rows, on the transaction's own copy of the tables. */
    method ImportRows(rows: seq<ParsedRow>)
      returns (after: Table, left: map<EventId, nat>, inserted: nat, duplicates: nat, audit: seq<Audit>)
      requires Valid()
      ensures after == InsertRows(digest, db.events, rows)
      ensures inserted + duplicates == |rows| && |after| == |db.events| + inserted
      ensures audit == RowAudit(digest, db.events, rows)
      ensures PreviewsOk(left, db.checks, trail.seenAt, after) && ChecksOk(db.checks, db.nextCheckId, after)
      ensures PreviewsAfterImport(db.previews, left, db.events, after)
    {
      hide PreviewsOk, PreviewsAfterImport, ChecksOk, DocumentsOk, EventsOk, InsertRows, RowAudit, IdOf, ToDict;
      hide DropPreviews, SumNew, ImportsOk;
      after, left, inserted, duplicates, audit := db.events, db.previews, 0, 0, [];
      NothingImported(db.previews, db.checks, trail.seenAt, db.events);
      PreviewKeysAreEvents(db.previews, db.checks, trail.seenAt, db.events);
      NoRows(digest, db.events, rows[..0]);
      for n := 0 to |rows|
        invariant after == InsertRows(digest, db.events, rows[..n]) && db.events.Keys <= after.Keys
        invariant inserted + duplicates == n && |after| == |db.events| + inserted
        invariant audit == RowAudit(digest, db.events, rows[..n])
        invariant PreviewsOk(left, db.checks, trail.seenAt, after) && ChecksOk(db.checks, db.nextCheckId, after)
        invariant PreviewsAfterImport(db.previews, left, db.events, after)
      {
        RowStep(digest, db.events, rows, n);
        var event := rows[n].event;
        var id := IdOf(digest, event);
        if id !in after {
          inserted := inserted + 1;
          var payload := ToDict(event);
          NewEventKeepsPreviews(left, db.checks, trail.seenAt, after, id, payload);
          NewEventKeepsChecks(db.checks, db.nextCheckId, after, id, payload);
          OneMoreRow(db.previews, left, db.events, after, id, payload);
          after := after[id := payload];
          left := DropPreviews(left, after, payload.kiz);
          audit := audit + [Audit(EVENT_IMPORTED, EventSubject(id))];
        } else {
          duplicates := duplicates + 1;
          assert audit + [] == audit;
        }
      }
      assert rows[..|rows|] == rows;
    }

    /** The inserts into import_rows; None when a row number repeats and the primary key refuses it. */
    method NumberRows(entries: seq<(int, RowEntry)>) returns (r: Option<map<int, RowEntry>>)
      ensures r.Some? <==> DistinctNumbers(entries)
      ensures r.Some? ==> Records(r.value, entries)
    {
      var table: map<int, RowEntry> := map[];
      for n := 0 to |entries|
        invariant DistinctNumbers(entries[..n]) && Records(table, entries[..n])
      {
        assert entries[..n + 1] == entries[..n] + [entries[n]];
        if entries[n].0 in table {
          var i :| 0 <= i < n && entries[..n][i].0 == entries[n].0;
          assert entries[i].0 == entries[n].0;
          return None;
        }
        ghost var before := table;
        table := table[entries[n].0 := entries[n].1];
        ghost var done := entries[..n + 1];
        forall k | k in table ensures exists i :: 0 <= i < |done| && done[i].0 == k {
          if k in before {
            var i :| 0 <= i < n && entries[..n][i].0 == k;
            assert done[i].0 == k;
          } else {
            assert done[n].0 == k;
          }
        }
      }
      assert entries[..|entries|] == entries;
      return Some(table);
    }

    method ImportWorkbook(fingerprint: string, filename: string, parsed: ParsedWorkbook)
      returns (r: Result<ImportReport, StoreError>)
      requires Valid() && (fingerprint in trail.contents ==> trail.contents[fingerprint] == parsed)
      modifies this
      ensures Valid()
      ensures r.Ok? <==> fingerprint in old(db).imports || DistinctNumbers(Entries(digest, parsed))
      ensures r.Err? ==> db == old(db) && trail == old(trail)
      ensures r.Ok? && fingerprint in old(db).imports ==>
                && r.value == ImportReport(fingerprint, 0, |parsed.rows|, |parsed.issues|, true)
                && db == old(db).(auditLog := old(db).auditLog + [Audit(IMPORT_REPEATED, File(fingerprint))])
                && trail == old(trail).(reports := old(trail).reports + [r.value])
      ensures r.Ok? && fingerprint !in old(db).imports ==>
                && ImportedInto(digest, old(db), db, fingerprint, filename, parsed, r.value)
                && trail == old(trail).(contents := old(trail).contents[fingerprint := parsed],
                                        reports := old(trail).reports + [r.value])
      ensures r.Ok? && fingerprint !in old(db).imports ==>
                fingerprint in db.importRows && TellsRows(digest, db.importRows[fingerprint], db.events, parsed)
    {
      hide PreviewsOk, PreviewsAfterImport, ChecksOk, DocumentsOk, EventsOk, RowAudit, InsertRows, DatabaseOk;
      ImportsOfDatabase(digest, db, trail);
      EventsOfDatabase(digest, db, trail);
      hide Records, Entries, DistinctNumbers, TellsRows;
      var existing := ExistingImport(fingerprint);
      if existing.Some? {
        var entry := Audit(IMPORT_REPEATED, File(fingerprint));
        RepeatKeepsDatabase(digest, db, trail, entry, existing.value);
        db := db.(auditLog := db.auditLog + [entry]);
        trail := trail.(reports := trail.reports + [existing.value]);
        return Ok(existing.value);
      }
      var after, left, inserted, duplicates, audit := ImportRows(parsed.rows);
      var numbered := NumberRows(Entries(digest, parsed));
      if numbered.None? {
        return Err(IntegrityError);
      }
      var report := ImportReport(fingerprint, inserted, duplicates, |parsed.issues|, false);
      ghost var before := db;
      db := db.(
        imports := db.imports[fingerprint :=
          ImportEntry(filename, if parsed.issues != [] then PARTIAL else IMPORTED,
                      inserted, duplicates, |parsed.issues|)],
        events := after,
        importRows := db.importRows[fingerprint := numbered.value],
        previews := left,
        auditLog := db.auditLog + audit + RejectionAudit(fingerprint, |parsed.issues|)
                    + [Audit(IMPORT_COMPLETED, File(fingerprint))]);
      ImportKeepsDatabase(digest, before, db, trail, fingerprint, filename, parsed, report);
      RecordsTellRows(digest, numbered.value, before.events, parsed.rows, parsed);
      trail := trail.(contents := trail.contents[fingerprint := parsed], reports := trail.reports + [report]);
      return Ok(report);
    }

    method SaveCheck(eventId: EventId, source: string, snapshot: Option<KiState>, outcome: Outcome)
      returns (r: Result<nat, StoreError>)
      requires Valid()
      modifies this
      ensures Valid()
      ensures r.Ok? <==> eventId in old(db).events
      ensures r.Err? ==> db == old(db) && trail == old(trail)
      ensures r.Ok? ==>
                && r.value == old(db).nextCheckId
                && db == WithCheck(old(db), Check(eventId, source, snapshot, outcome))
                && trail == Seen(old(db), old(trail), eventId)
      ensures r.Ok? ==>
                && r.value !in old(db).checks && db.checks.Keys == old(db).checks.Keys + {r.value}
                && db.checks[r.value] == Check(eventId, source, snapshot, outcome)
                && (forall c :: c in old(db).checks ==> db.checks[c] == old(db).checks[c])
                && db.previews.Keys == old(db).previews.Keys + {eventId} && db.previews[eventId] == r.value
                && (forall e :: e in old(db).previews && e != eventId ==> db.previews[e] == old(db).previews[e])
                && db.auditLog == old(db).auditLog + [Audit(DRY_RUN_CHECKED, EventSubject(eventId))]
    {
      hide DatabaseOk;
      if eventId !in db.events {
        return Err(IntegrityError);
      }
      FreshCheckId(digest, db, trail);
      var check := Check(eventId, source, snapshot, outcome);
      CheckKeepsDatabase(digest, db, trail, check);
      trail := Seen(db, trail, eventId);
      var id := db.nextCheckId;
      db := WithCheck(db, check);
      return Ok(id);
    }

    method RegisterDocument(eventId: EventId, documentId: string) returns (r: Result<(), StoreError>)
      requires Valid()
      modifies `db
      ensures Valid()
      ensures r.Ok? <==> (documentId != ""
                && if documentId in old(db).documents then old(db).documents[documentId].eventId == eventId
                   else eventId in old(db).events)
      ensures db == if r.Err? || documentId in old(db).documents then old(db)
                    else WithObserved(old(db), documentId, Document(eventId, DocumentReport(ACCEPTED, None)),
                                      DOCUMENT_REGISTERED)
    {
      hide DatabaseOk;
      if documentId == "" {
        return Err(EmptyDocumentId);
      }
      if documentId in db.documents {
        return if db.documents[documentId].eventId != eventId then Err(DocumentOfAnotherEvent) else Ok(());
      }
      if eventId !in db.events {
        return Err(IntegrityError);
      }
      var document := Document(eventId, DocumentReport(ACCEPTED, None));
      ObservedKeepsDatabase(digest, db, trail, documentId, document, DOCUMENT_REGISTERED);
      db := WithObserved(db, documentId, document, DOCUMENT_REGISTERED);
      return Ok(());
    }

    method DocumentReportOf(documentId: string) returns (r: Result<DocumentReport, StoreError>)
      ensures r == if documentId in db.documents then Ok(db.documents[documentId].report) else Err(DocumentNotFound)
    {
      if documentId !in db.documents {
        return Err(DocumentNotFound);
      }
      return Ok(db.documents[documentId].report);
    }

    method UpdateDocument(documentId: string, report: DocumentReport) returns (r: Result<DocumentReport, StoreError>)
      requires Valid()
      modifies `db
      ensures Valid()
      ensures documentId !in old(db).documents ==> r == Err(DocumentNotFound) && db == old(db)
      ensures documentId in old(db).documents && Terminal(old(db).documents[documentId].report.status) ==>
                && db == old(db)
                && r == if report != old(db).documents[documentId].report then Err(TerminalStatusChange) else Ok(report)
      ensures documentId in old(db).documents && !Terminal(old(db).documents[documentId].report.status) ==>
                r == Ok(report)
                && db == WithObserved(old(db), documentId, old(db).documents[documentId].(report := report),
                                      DOCUMENT_STATUS_OBSERVED)
    {
      hide DatabaseOk, WithObserved;
      var current := DocumentReportOf(documentId);
      if current.Err? {
        return Err(current.error);
      }
      if Terminal(current.value.status) {
        return if report != current.value then Err(TerminalStatusChange) else Ok(current.value);
      }
      ObserveDocument(documentId, report);
      return Ok(report);
    }

    /** The update and the new history row of a document that is not terminal. */
    method ObserveDocument(documentId: string, report: DocumentReport)
      requires Valid() && documentId in db.documents && !Terminal(db.documents[documentId].report.status)
      modifies `db
      ensures Valid()
      ensures db == WithObserved(old(db), documentId, old(db).documents[documentId].(report := report),
                                 DOCUMENT_STATUS_OBSERVED)
    {
      hide DatabaseOk, WithObserved, Terminal;
      ReportKeepsDatabase(digest, db, trail, documentId, report);
      db := WithObserved(db, documentId, db.documents[documentId].(report := report), DOCUMENT_STATUS_OBSERVED);
    }
  }

  // ---------- The tracker ----------

  /** What the verifier does when asked: a report, an exception by type and text, or a value refused as a TypeError. */
  datatype VerifierReply =
    | Reports(report: DocumentReport)
    | Raises(kind: string, text: string)
    | NotAReport
    | NotAStatus

  function Clip(text: string, length: nat): string {
    if |text| <= length then text else text[..length]
  }

  /** The exception in flight, as type name and text. */
  function ErrorText(reply: VerifierReply): string
    requires !reply.Reports?
  {
    match reply
    case Raises(kind, text) => kind + ": " + text
    case NotAReport => "TypeError: StatusVerifier вернул не DocumentReport"
    case NotAStatus => "TypeError: Некорректный нормализованный статус документа"
  }

  /** The report the tracker stores for a reply. */
  function Observed(reply: VerifierReply): DocumentReport {
    if reply.Reports? then reply.report else DocumentReport(VERIFICATION_ERROR, Some(Clip(ErrorText(reply), 2000)))
  }

  /** A proper report is stored as it is; any failure to get one leaves the document open, with the error's start. */
  ghost predicate Faithful(reply: VerifierReply, stored: DocumentReport) {
    if reply.Reports? then stored == reply.report
    else
      && stored.status == VERIFICATION_ERROR && stored.status != SUCCEEDED && stored.status != REJECTED
      && stored.error.Some? && stored.error.value <= ErrorText(reply)
      && (|ErrorText(reply)| <= 2000 ==> stored.error.value == ErrorText(reply))
      && (|ErrorText(reply)| > 2000 ==> |stored.error.value| == 2000)
  }

  lemma ObservedIsFaithful(reply: VerifierReply)
    ensures Faithful(reply, Observed(reply))
    ensures !reply.Reports? ==> !Terminal(Observed(reply).status)
  {
  }

  class DocumentTracker {
    const store: EventStore
    ghost var verifierCalls: seq<string>

    constructor (store: EventStore)
      ensures this.store == store && verifierCalls == []
    {
      this.store := store;
      verifierCalls := [];
    }

    method Refresh(documentId: string, reply: VerifierReply) returns (r: Result<DocumentReport, StoreError>)
      requires store.Valid()
      modifies store`db, this
      ensures store.Valid()
      ensures documentId !in old(store.db).documents ==>
                r == Err(DocumentNotFound) && store.db == old(store.db) && verifierCalls == old(verifierCalls)
      ensures documentId in old(store.db).documents && Terminal(old(store.db).documents[documentId].report.status) ==>
                && r == Ok(old(store.db).documents[documentId].report)
                && store.db == old(store.db) && verifierCalls == old(verifierCalls)
      ensures documentId in old(store.db).documents && !Terminal(old(store.db).documents[documentId].report.status) ==>
                && r == Ok(Observed(reply)) && verifierCalls == old(verifierCalls) + [documentId]
                && store.db == WithObserved(old(store.db), documentId,
                                            old(store.db).documents[documentId].(report := Observed(reply)),
                                            DOCUMENT_STATUS_OBSERVED)
      ensures documentId in old(store.db).documents && !Terminal(old(store.db).documents[documentId].report.status) ==>
                && documentId in store.db.documents && Faithful(reply, store.db.documents[documentId].report)
                && (!reply.Reports? ==> !Terminal(store.db.documents[documentId].report.status))
    {
      hide DatabaseOk, Observed, Faithful;
      ObservedIsFaithful(reply);
      var current := store.DocumentReportOf(documentId);
      if current.Err? || Terminal(current.value.status) {
        return current;
      }
      verifierCalls := verifierCalls + [documentId];
      r := store.UpdateDocument(documentId, Observed(reply));
    }
  }

  /** A failure to ask is retryable: the next refresh asks the verifier again and stores what it says. */
  method RefreshAfterFailure(tracker: DocumentTracker, documentId: string, failure: VerifierReply, reply: VerifierReply)
    requires tracker.store.Valid() && !failure.Reports?
    requires documentId in tracker.store.db.documents
             && !Terminal(tracker.store.db.documents[documentId].report.status)
    modifies tracker, tracker.store`db
    ensures tracker.store.Valid() && tracker.verifierCalls == old(tracker.verifierCalls) + [documentId, documentId]
    ensures documentId in tracker.store.db.documents
            && Faithful(reply, tracker.store.db.documents[documentId].report)
    ensures tracker.store.db.documentHistory ==
              old(tracker.store.db.documentHistory)
              + [(documentId, Observed(failure)), (documentId, tracker.store.db.documents[documentId].report)]
  {
    hide DatabaseOk, Faithful, Observed, Terminal;
    var _ := tracker.Refresh(documentId, failure);
    var _ := tracker.Refresh(documentId, reply);
  }

  // ---------- Runs ----------

  datatype Step =
    | Importing(fingerprint: string, filename: string, parsed: ParsedWorkbook)
    | Checking(eventId: EventId, source: string, snapshot: Option<KiState>, outcome: Outcome)
    | Registering(eventId: EventId, documentId: string)
    | Refreshing(documentId: string, reply: VerifierReply)

  /** A fingerprint determines its workbook, among the steps and against what was imported before. */
  ghost predicate ContentDetermined(steps: seq<Step>, contents: Contents) {
    && (forall i :: 0 <= i < |steps| && steps[i].Importing? && steps[i].fingerprint in contents ==>
          contents[steps[i].fingerprint] == steps[i].parsed)
    && (forall i, j | 0 <= i < j < |steps| && steps[i].Importing? && steps[j].Importing?
          && steps[i].fingerprint == steps[j].fingerprint :: steps[i].parsed == steps[j].parsed)
  }

  /** Nothing recorded is lost or changed, except a preview, and the report of a document that is not terminal. */
  ghost predicate Grows(before: Database, after: Database) {
    && (forall id :: id in before.events ==> id in after.events && after.events[id] == before.events[id])
    && (forall f :: f in before.imports ==> f in after.imports && after.imports[f] == before.imports[f])
    && (forall c :: c in before.checks ==> c in after.checks && after.checks[c] == before.checks[c])
    && (forall d :: d in before.documents ==>
          && d in after.documents && after.documents[d].eventId == before.documents[d].eventId
          && (Terminal(before.documents[d].report.status) ==> after.documents[d] == before.documents[d]))
    && before.documentHistory <= after.documentHistory && before.auditLog <= after.auditLog
  }

  lemma GrowsTransitive(a: Database, b: Database, c: Database)
    requires Grows(a, b) && Grows(b, c)
    ensures Grows(a, c)
  {
  }

  lemma ImportGrows(digest: DigestFunction, before: Database, after: Database, trail: Trail, fingerprint: string,
                    filename: string, parsed: ParsedWorkbook, report: ImportReport)
    requires Injective(digest) && DatabaseOk(digest, before, trail) && fingerprint !in before.imports
    requires ImportedInto(digest, before, after, fingerprint, filename, parsed, report)
    ensures Grows(before, after)
  {
    hide PreviewsOk, ChecksOk, DocumentsOk, EventsOk, PreviewsAfterImport, InsertRows, RowAudit, Entries, Records;
    hide SumNew, ImportsOk;
    EventsStay(digest, before.events, trail.contents, parsed.rows);
  }

  lemma CheckGrows(db: Database, check: Check)
    requires ChecksOk(db.checks, db.nextCheckId, db.events)
    ensures Grows(db, WithCheck(db, check))
  {
  }

  lemma ObservedGrows(db: Database, id: string, document: Document, action: Action)
    requires id in db.documents ==>
               document.eventId == db.documents[id].eventId && !Terminal(db.documents[id].report.status)
    ensures Grows(db, WithObserved(db, id, document, action))
  {
  }

  lemma OnlyAuditGrows(db: Database, entry: Audit)
    ensures Grows(db, db) && Grows(db, db.(auditLog := db.auditLog + [entry]))
  {
  }

  // ---------- Which workbooks a run imports ----------

  /** A workbook enters when its fingerprint is new and its row numbers are distinct. */
  ghost function ContentsAfter(digest: DigestFunction, contents: Contents, step: Step): Contents {
    if step.Importing? && step.fingerprint !in contents && DistinctNumbers(Entries(digest, step.parsed)) then
      contents[step.fingerprint := step.parsed]
    else contents
  }

  ghost function ContentsAfterAll(digest: DigestFunction, contents: Contents, steps: seq<Step>): Contents {
    if steps == [] then contents
    else ContentsAfter(digest, ContentsAfterAll(digest, contents, steps[..|steps| - 1]), steps[|steps| - 1])
  }

  /** The pairs of fingerprint and workbook that steps present, in no order and without repetition. */
  function ImportsOf(steps: seq<Step>): set<(string, ParsedWorkbook)> {
    set i | 0 <= i < |steps| && steps[i].Importing? :: (steps[i].fingerprint, steps[i].parsed)
  }

  /** The event ids in all importable workbooks among the pairs. */
  ghost function ImportableIds(digest: DigestFunction, imports: set<(string, ParsedWorkbook)>): set<EventId> {
    set pair, i | pair in imports && DistinctNumbers(Entries(digest, pair.1)) && 0 <= i < |pair.1.rows|
      :: IdOf(digest, pair.1.rows[i].event)
  }

  /** The contents in the end are those of the start and every importable workbook presented. */
  lemma {:induction false} ContentsAfterAllHold(digest: DigestFunction, contents: Contents, steps: seq<Step>)
    requires ContentDetermined(steps, contents)
    ensures var after := ContentsAfterAll(digest, contents, steps);
            && (forall f :: f in contents ==> f in after && after[f] == contents[f])
            && (forall f :: f in after && f !in contents ==> (f, after[f]) in ImportsOf(steps))
            && (forall f :: f in after && f !in contents ==> DistinctNumbers(Entries(digest, after[f])))
            && (forall pair :: pair in ImportsOf(steps) && DistinctNumbers(Entries(digest, pair.1)) ==>
                  pair.0 in after && after[pair.0] == pair.1)
  {
    hide DistinctNumbers, Entries, ContentDetermined, ImportsOf;
    if steps != [] {
      var last := |steps| - 1;
      PrefixDetermined(steps, contents, last);
      ContentsAfterAllHold(digest, contents, steps[..last]);
      ImportsOfSnoc(steps);
      LastIsDetermined(contents, steps);
    } else {
      assert ImportsOf(steps) == {} by { NoImports(steps); }
    }
  }

  lemma NoImports(steps: seq<Step>)
    requires steps == []
    ensures ImportsOf(steps) == {}
  {
  }

  /** The workbook of the last step is the one its fingerprint stood for before. */
  lemma LastIsDetermined(contents: Contents, steps: seq<Step>)
    requires steps != [] && ContentDetermined(steps, contents)
    ensures var last := steps[|steps| - 1];
            last.Importing? ==>
              && (last.fingerprint in contents ==> contents[last.fingerprint] == last.parsed)
              && forall w :: (last.fingerprint, w) in ImportsOf(steps[..|steps| - 1]) ==> w == last.parsed
  {
    var n := |steps| - 1;
    assert forall i :: 0 <= i < n ==> steps[..n][i] == steps[i];
  }

  lemma PrefixDetermined(steps: seq<Step>, contents: Contents, n: nat)
    requires n <= |steps| && ContentDetermined(steps, contents)
    ensures ContentDetermined(steps[..n], contents)
  {
  }

  lemma ImportsOfSnoc(steps: seq<Step>)
    requires steps != []
    ensures var last := steps[|steps| - 1];
            ImportsOf(steps) ==
              ImportsOf(steps[..|steps| - 1]) + if last.Importing? then {(last.fingerprint, last.parsed)} else {}
  {
    var before := steps[..|steps| - 1];
    assert forall i :: 0 <= i < |before| ==> before[i] == steps[i];
  }

  /** Contents that imports with the same pairs leave are the same: order and repetition play no part. */
  lemma SameImportsSameContents(digest: DigestFunction, contents: Contents, a: seq<Step>, b: seq<Step>)
    requires ContentDetermined(a, contents) && ContentDetermined(b, contents) && ImportsOf(a) == ImportsOf(b)
    ensures ContentsAfterAll(digest, contents, a) == ContentsAfterAll(digest, contents, b)
  {
    hide DistinctNumbers, Entries, ContentDetermined, ImportsOf;
    ContentsAfterAllHold(digest, contents, a);
    ContentsAfterAllHold(digest, contents, b);
    var first, second := ContentsAfterAll(digest, contents, a), ContentsAfterAll(digest, contents, b);
    assert forall f :: f in first && f !in contents ==> (f, first[f]).0 in second && second[f] == first[f];
    assert forall f :: f in second && f !in contents ==> (f, second[f]).0 in first;
  }

  /** The ids a run adds are those of the rows of all importable workbooks it presents. */
  lemma ContentIdsAfterAll(digest: DigestFunction, contents: Contents, steps: seq<Step>)
    requires ContentDetermined(steps, contents)
    ensures ContentIds(digest, ContentsAfterAll(digest, contents, steps)) ==
              ContentIds(digest, contents) + ImportableIds(digest, ImportsOf(steps))
  {
    hide DistinctNumbers, Entries, ContentDetermined, ImportsOf, IdOf, ContentsAfterAll;
    ContentsAfterAllHold(digest, contents, steps);
    var after, imports := ContentsAfterAll(digest, contents, steps), ImportsOf(steps);
    forall id | id in ContentIds(digest, after)
      ensures id in ContentIds(digest, contents) + ImportableIds(digest, imports)
    {
      var f, i :| f in after && 0 <= i < |after[f].rows| && IdOf(digest, after[f].rows[i].event) == id;
      if f in contents {
        assert IdOf(digest, contents[f].rows[i].event) == id;
      } else {
        assert (f, after[f]) in imports && IdOf(digest, (f, after[f]).1.rows[i].event) == id;
      }
    }
    forall id | id in ContentIds(digest, contents) ensures id in ContentIds(digest, after) {
      var f, i :| f in contents && 0 <= i < |contents[f].rows| && IdOf(digest, contents[f].rows[i].event) == id;
      assert IdOf(digest, after[f].rows[i].event) == id;
    }
    forall id | id in ImportableIds(digest, imports) ensures id in ContentIds(digest, after) {
      var pair, i :| pair in imports && DistinctNumbers(Entries(digest, pair.1)) && 0 <= i < |pair.1.rows|
                     && IdOf(digest, pair.1.rows[i].event) == id;
      assert IdOf(digest, after[pair.0].rows[i].event) == id;
    }
  }

  /**
   Two runs from equal contents that present the same workbooks, in whatever order and however often each,
   end with the same events, and all their imports together report the same number of new ones.
   */
  lemma OrderAndRepetitionDoNotMatter(digest: DigestFunction, contents: Contents, a: seq<Step>, b: seq<Step>,
                                      first: Database, firstTrail: Trail, second: Database, secondTrail: Trail)
    requires Injective(digest) && ContentDetermined(a, contents) && ContentDetermined(b, contents)
    requires ImportsOf(a) == ImportsOf(b)
    requires DatabaseOk(digest, first, firstTrail) && firstTrail.contents == ContentsAfterAll(digest, contents, a)
    requires DatabaseOk(digest, second, secondTrail) && secondTrail.contents == ContentsAfterAll(digest, contents, b)
    ensures first.events == second.events && SumNew(firstTrail.reports) == SumNew(secondTrail.reports)
  {
    hide DatabaseOk, SumNew, ContentIds, ContentsAfterAll, ContentDetermined, ImportsOf;
    SameImportsSameContents(digest, contents, a, b);
    EventsOfDatabase(digest, first, firstTrail);
    EventsOfDatabase(digest, second, secondTrail);
    TableIsItsIds(digest, first.events, second.events);
  }

  /** One operation of a run. */
  method TakeStep(tracker: DocumentTracker, step: Step)
    requires tracker.store.Valid()
    requires var contents := tracker.store.trail.contents;
             step.Importing? && step.fingerprint in contents ==> contents[step.fingerprint] == step.parsed
    modifies tracker, tracker.store
    ensures tracker.store.Valid() && Grows(old(tracker.store.db), tracker.store.db)
    ensures old(tracker.store.trail.reports) <= tracker.store.trail.reports
    ensures tracker.store.trail.contents ==
              ContentsAfter(tracker.store.digest, old(tracker.store.trail.contents), step)
  {
    hide DatabaseOk, Grows, ImportedInto, WithCheck, WithObserved, Observed, DistinctNumbers, Entries;
    var store := tracker.store;
    ghost var before, trail := store.db, store.trail;
    ChecksOfDatabase(store.digest, before, trail);
    match step {
      case Importing(fingerprint, filename, parsed) =>
        OnlyAuditGrows(before, Audit(IMPORT_REPEATED, File(fingerprint)));
        var r := store.ImportWorkbook(fingerprint, filename, parsed);
        if r.Ok? && fingerprint !in before.imports {
          ImportGrows(store.digest, before, store.db, trail, fingerprint, filename, parsed, r.value);
        }
      case Checking(eventId, source, snapshot, outcome) =>
        OnlyAuditGrows(before, Audit(DRY_RUN_CHECKED, EventSubject(eventId)));
        CheckGrows(before, Check(eventId, source, snapshot, outcome));
        var _ := store.SaveCheck(eventId, source, snapshot, outcome);
      case Registering(eventId, documentId) =>
        OnlyAuditGrows(before, Audit(DOCUMENT_REGISTERED, DocumentSubject(documentId)));
        if documentId !in before.documents {
          ObservedGrows(before, documentId, Document(eventId, DocumentReport(ACCEPTED, None)), DOCUMENT_REGISTERED);
        }
        var _ := store.RegisterDocument(eventId, documentId);
      case Refreshing(documentId, reply) =>
        OnlyAuditGrows(before, Audit(DOCUMENT_STATUS_OBSERVED, DocumentSubject(documentId)));
        if documentId in before.documents && !Terminal(before.documents[documentId].report.status) {
          ObservedGrows(before, documentId, before.documents[documentId].(report := Observed(reply)),
                        DOCUMENT_STATUS_OBSERVED);
        }
        var _ := tracker.Refresh(documentId, reply);
    }
  }

  lemma ChecksOfDatabase(digest: DigestFunction, db: Database, trail: Trail)
    requires DatabaseOk(digest, db, trail)
    ensures ChecksOk(db.checks, db.nextCheckId, db.events) && db.imports.Keys == trail.contents.Keys
  {
    hide ChecksOk, Records;
  }

  /**
   Any run of imports, checks, registrations and refreshes. The invariant holds throughout: every preview is the
   latest check of its event on the history the KI still has, every document's story is sound, every import accounts
   for its rows. The events are those of before and of every importable workbook presented, no more and no fewer, and
   as many as the imports reported new. Nothing recorded is lost.
   */
  method Run(tracker: DocumentTracker, steps: seq<Step>)
    requires tracker.store.Valid() && ContentDetermined(steps, tracker.store.trail.contents)
    modifies tracker, tracker.store
    ensures tracker.store.Valid() && Grows(old(tracker.store.db), tracker.store.db)
    ensures old(tracker.store.trail.reports) <= tracker.store.trail.reports
    ensures tracker.store.trail.contents ==
              ContentsAfterAll(tracker.store.digest, old(tracker.store.trail.contents), steps)
    ensures tracker.store.db.events.Keys ==
              old(tracker.store.db.events.Keys) + ImportableIds(tracker.store.digest, ImportsOf(steps))
    ensures |tracker.store.db.events| == SumNew(tracker.store.trail.reports)
  {
    hide DatabaseOk, Grows, ContentIds, SumNew, ImportableIds, ContentsAfter;
    var store := tracker.store;
    ghost var contents := store.trail.contents;
    EventsOfDatabase(store.digest, store.db, store.trail);
    ContentIdsAfterAll(store.digest, contents, steps);
    OnlyAuditGrows(store.db, Audit(IMPORT_REPEATED, File("")));
    for n := 0 to |steps|
      invariant store.Valid() && Grows(old(tracker.store.db), store.db)
      invariant old(tracker.store.trail.reports) <= store.trail.reports
      invariant store.trail.contents == ContentsAfterAll(store.digest, contents, steps[..n])
    {
      ghost var middle := store.db;
      NextIsDetermined(store.digest, contents, steps, n);
      TakeStep(tracker, steps[n]);
      GrowsTransitive(old(tracker.store.db), middle, store.db);
      assert steps[..n + 1][..n] == steps[..n];
    }
    assert steps[..|steps|] == steps;
    EventsOfDatabase(store.digest, store.db, store.trail);
  }

  /** The workbook of a step is the one its fingerprint already stands for, if any. */
  lemma NextIsDetermined(digest: DigestFunction, contents: Contents, steps: seq<Step>, n: nat)
    requires n < |steps| && ContentDetermined(steps, contents)
    ensures var before, step := ContentsAfterAll(digest, contents, steps[..n]), steps[n];
            step.Importing? && step.fingerprint in before ==> before[step.fingerprint] == step.parsed
  {
    hide ContentDetermined, ContentsAfterAll, ImportsOf, DistinctNumbers, Entries;
    PrefixDetermined(steps, contents, n);
    PrefixDetermined(steps, contents, n + 1);
    ContentsAfterAllHold(digest, contents, steps[..n]);
    LastIsDetermined(contents, steps[..n + 1]);
    assert steps[..n + 1][..n] == steps[..n];
  }

  /** Two stores that were presented the same workbooks, in any order and with any repetition, hold the same events. */
  method RunInTwoOrders(first: DocumentTracker, a: seq<Step>, second: DocumentTracker, b: seq<Step>)
    requires first != second && first.store != second.store && first.store.digest == second.store.digest
    requires first.store.Valid() && second.store.Valid() && first.store.trail.contents == second.store.trail.contents
    requires ContentDetermined(a, first.store.trail.contents) && ContentDetermined(b, first.store.trail.contents)
    requires ImportsOf(a) == ImportsOf(b)
    modifies first, first.store, second, second.store
    ensures first.store.Valid() && second.store.Valid() && first.store.db.events == second.store.db.events
    ensures SumNew(first.store.trail.reports) == SumNew(second.store.trail.reports)
  {
    hide DatabaseOk, Grows, SumNew, ImportableIds, ContentsAfterAll, ContentDetermined, ImportsOf;
    ghost var contents := first.store.trail.contents;
    Run(first, a);
    Run(second, b);
    OrderAndRepetitionDoNotMatter(first.store.digest, contents, a, b,
                                  first.store.db, first.store.trail, second.store.db, second.store.trail);
  }

  lemma EventsOfDatabase(digest: DigestFunction, db: Database, trail: Trail)
    requires DatabaseOk(digest, db, trail)
    ensures db.events.Keys == ContentIds(digest, trail.contents) && |db.events| == SumNew(trail.reports)
    ensures Identified(digest, db.events)
  {
    hide ImportsOk, ChecksOk, PreviewsOk, DocumentsOk, SumNew, ContentIds;
  }
}
