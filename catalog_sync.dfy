/** Approving a submission adds it to `catalog_records`, unless a record
    with the same name, state, town, date range and type is already there.
    The table is a sequence of records the sync updates in place; how the
    lookup and the insert end is an input. */
module CatalogSync {
  import opened Wrappers

  /** The fields of an approved submission the sync reads. */
  datatype Submission = Submission(
    name: string, state: string, town: string, dateRange: string, kind: string,
    color: string, imageUrl: Option<string>)

  /** A row of `catalog_records` (only the columns the sync writes). */
  datatype CatalogRecord = CatalogRecord(
    name: string, state: string, town: string, dateRange: string, color: string,
    kind: string, imageUrl: Option<string>, valuation: string)

  /** How the `select ... maybeSingle()` lookup ends: it answers, or its
      error leaves `data` null, or the call throws. */
  datatype Lookup = Answered | QueryFailed | LookupThrew(thrown: Thrown)

  /** How the insert ends: done, an error returned in `{ error }`, or a
      throw. */
  datatype InsertOutcome = Inserted | InsertFailed(message: string) | InsertThrew(thrown: Thrown)

  /** `{ ok, error? }`. */
  datatype SyncResult = SyncResult(ok: bool, error: Option<string>)

  /** The five columns the lookup filters on with `.eq`; colour and image
      are not among them. */
  predicate Matches(r: CatalogRecord, s: Submission) {
    r.name == s.name && r.state == s.state && r.town == s.town && r.dateRange == s.dateRange && r.kind == s.kind
  }

  predicate MatchAt(records: seq<CatalogRecord>, k: int, s: Submission) {
    0 <= k < |records| && Matches(records[k], s)
  }

  /** The lookup finds a row. */
  predicate HasMatch(records: seq<CatalogRecord>, s: Submission) {
    exists k :: 0 <= k < |records| && MatchAt(records, k, s)
  }

  /** The row inserted: the submission's seven fields and valuation "Common". */
  function NewRecord(s: Submission): (r: CatalogRecord)
    ensures Matches(r, s) && r.color == s.color && r.imageUrl == s.imageUrl && r.valuation == "Common"
  {
    CatalogRecord(s.name, s.state, s.town, s.dateRange, s.color, s.kind, s.imageUrl, "Common")
  }

  /** `e instanceof Error ? e.message : "Failed to sync to catalog"`. */
  function ThrownText(e: Thrown): string {
    match e
    case ErrorMessage(m) => m
    case NotAnError => "Failed to sync to catalog"
  }

  /** The table and the result after one sync. */
  datatype Synced = Synced(records: seq<CatalogRecord>, result: SyncResult)

  /** One call of `syncApprovedSubmissionToCatalog` on a table. */
  function Sync(records: seq<CatalogRecord>, s: Submission, lookup: Lookup, insert: InsertOutcome): Synced {
    if lookup.LookupThrew? then Synced(records, SyncResult(false, Some(ThrownText(lookup.thrown))))
    else if lookup.Answered? && HasMatch(records, s) then Synced(records, SyncResult(true, None))
    else
      match insert
      case Inserted => Synced(records + [NewRecord(s)], SyncResult(true, None))
      case InsertFailed(m) => Synced(records, SyncResult(false, Some(m)))
      case InsertThrew(e) => Synced(records, SyncResult(false, Some(ThrownText(e))))
  }

  /** A sync adds at most one row, keeps every row that was there, and the
      row it adds is the submission's. It reports ok exactly when it left a
      matching row behind without an error. */
  lemma SyncShape(records: seq<CatalogRecord>, s: Submission, lookup: Lookup, insert: InsertOutcome)
    ensures var after := Sync(records, s, lookup, insert);
            after.records == records
            || (after.records == records + [NewRecord(s)] && !(lookup.Answered? && HasMatch(records, s)))
    ensures var after := Sync(records, s, lookup, insert);
            after.result.ok <==> HasMatch(after.records, s) && after.result.error.None?
                                 && (lookup.Answered? || insert.Inserted?)
    ensures var after := Sync(records, s, lookup, insert);
            !after.result.ok ==> after.records == records && after.result.error.Some?
  {
    var after := Sync(records, s, lookup, insert);
    if after.records == records + [NewRecord(s)] {
      assert MatchAt(after.records, |records|, s);
    }
  }

  /** An answered lookup that finds a match inserts nothing. */
  lemma MatchSkipsInsert(records: seq<CatalogRecord>, s: Submission, insert: InsertOutcome)
    requires HasMatch(records, s)
    ensures Sync(records, s, Answered, insert) == Synced(records, SyncResult(true, None))
  {
  }

  /** Syncing the same submission twice adds nothing the first sync did not:
      after a successful sync the table holds a match. */
  lemma SyncIdempotent(records: seq<CatalogRecord>, s: Submission, first: InsertOutcome,
                         second: InsertOutcome)
    requires Sync(records, s, Answered, first).result.ok
    ensures var once := Sync(records, s, Answered, first);
            Sync(once.records, s, Answered, second) == once
  {
    var once := Sync(records, s, Answered, first);
    SyncShape(records, s, Answered, first);
  }

  /** A submission that differs from a catalogued one only in colour or
      image is not inserted. */
  lemma ColorAndImageIgnored(records: seq<CatalogRecord>, s: Submission, color: string,
                             imageUrl: Option<string>, insert: InsertOutcome)
    requires HasMatch(records, s)
    ensures var t := s.(color := color, imageUrl := imageUrl);
            Sync(records, t, Answered, insert).records == records
  {
    var t := s.(color := color, imageUrl := imageUrl);
    var k :| 0 <= k < |records| && MatchAt(records, k, s);
    assert MatchAt(records, k, t);
  }

  /** A failed lookup counts as "no match": the insert goes ahead even when
      a matching row is there, so the table can end up with two. */
  lemma FailedLookupInsertsAgain(records: seq<CatalogRecord>, s: Submission)
    requires HasMatch(records, s)
    ensures var after := Sync(records, s, QueryFailed, Inserted).records;
            |after| == |records| + 1 && MatchAt(after, |records|, s)
            && exists k :: k < |records| && MatchAt(after, k, s)
  {
    var after := Sync(records, s, QueryFailed, Inserted).records;
    var k :| 0 <= k < |records| && MatchAt(records, k, s);
    assert MatchAt(after, k, s);
  }

  class CatalogTable {
    var records: seq<CatalogRecord>

    constructor (initial: seq<CatalogRecord>)
      ensures records == initial
    {
      records := initial;
    }

    /** `syncApprovedSubmissionToCatalog(submission)` against this table. */
    method SyncApproved(s: Submission, lookup: Lookup, insert: InsertOutcome) returns (result: SyncResult)
      modifies this
      ensures Synced(records, result) == Sync(old(records), s, lookup, insert)
    {
      if lookup.LookupThrew? {
        return SyncResult(false, Some(ThrownText(lookup.thrown)));
      }
      if lookup.Answered? && HasMatch(records, s) {
        return SyncResult(true, None);
      }
      match insert {
        case Inserted =>
          records := records + [NewRecord(s)];
          result := SyncResult(true, None);
        case InsertFailed(m) =>
          result := SyncResult(false, Some(m));
        case InsertThrew(e) =>
          result := SyncResult(false, Some(ThrownText(e)));
      }
    }
  }
}
