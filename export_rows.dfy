/**
 * The export's per-row mapping and its main loop: each query row becomes one
 * 19-column CSV record, or nothing when it has no usable name.
 */
module ExportRows {
  import opened Wrappers
  import opened Text
  import opened ExportQuery

  /** The CSV header, in column order. */
  const Header: seq<string> := [
    "owner_id", "name", "itunesid", "vibe", "region", "audience_band", "price_gbp",
    "sample_url", "available", "can_negotiate", "banner_image_path", "tile_image_path",
    "external_ref", "external_json", "is_verified", "is_on_waitlist", "has_surveyed",
    "created_at", "updated_at"]

  /** The dictionary serialised into the external_json column. */
  datatype ExternalJson = ExternalJson(
    adlid: string,
    podcastindexId: Option<int>,
    itunesid: Option<int>,
    email: Option<string>,
    website: Option<string>,
    feedUrl: Option<string>,
    feedLink: Option<string>)

  /** One value handed to csv.writer: None, a string, an int, a bool or the JSON blob. */
  datatype Cell = Null | Str(s: string) | Int(i: int) | Bool(b: bool) | Json(j: ExternalJson)

  type Line = seq<Cell>

  /** Python truthiness of a TEXT column: non-NULL and non-empty. */
  predicate Truthy(x: Option<string>) {
    x.Some? && x.value != ""
  }

  /** (x or "") */
  function OrEmpty(x: Option<string>): string {
    if x.Some? then x.value else ""
  }

  /**
   * resolve_name: (creator_title or feed_title or "").strip(). The feed title
   * is consulted only when the creator title is NULL or "", so a
   * whitespace-only creator title wins and strips to "".
   */
  function ResolveName(row: Row): (name: string)
    ensures Trimmed(name)
    ensures Truthy(row.creatorTitle) ==> name == Strip(row.creatorTitle.value)
    ensures !Truthy(row.creatorTitle) ==> name == Strip(OrEmpty(row.feedTitle))
  {
    Strip(if Truthy(row.creatorTitle) then row.creatorTitle.value
          else if Truthy(row.feedTitle) then row.feedTitle.value
          else "")
  }

  /** The first non-empty string of the list, or "". */
  function FirstNonEmpty(candidates: seq<string>): string {
    if candidates == [] then ""
    else if candidates[0] != "" then candidates[0]
    else FirstNonEmpty(candidates[1..])
  }

  /** resolve_sample_url: the first non-empty stripped value of website, feed link, feed url. */
  function ResolveSampleUrl(row: Row): (url: string)
    ensures Trimmed(url)
    ensures url == FirstNonEmpty([Strip(OrEmpty(row.podscanWebsite)), Strip(OrEmpty(row.feedLink)),
                                  Strip(OrEmpty(row.feedUrl))])
  {
    var website := Strip(OrEmpty(row.podscanWebsite));
    var link := Strip(OrEmpty(row.feedLink));
    var url := Strip(OrEmpty(row.feedUrl));
    assert [website, link, url][1..] == [link, url] && [link, url][1..] == [url] && [url][1..] == [];
    assert FirstNonEmpty([url]) == url;
    if website != "" then website
    else if link != "" then link
    else url
  }

  /** (podscan_region or "UK").upper(): never empty. */
  function ResolveRegion(row: Row): (region: string)
    ensures region != ""
    ensures Truthy(row.podscanRegion) ==> region == Upper(row.podscanRegion.value)
    ensures !Truthy(row.podscanRegion) ==> region == "UK"
  {
    Upper(if Truthy(row.podscanRegion) then row.podscanRegion.value else "UK")
  }

  /**
   * podscan_itunesid or creator_itunesid or None: zero and NULL are both
   * falsy, and the feed's itunesId is not a column of the row at all.
   */
  function EmittedItunesId(row: Row): (id: Option<int>)
    ensures id != Some(0)
    ensures NullIfZero(row.podscanItunesid).Some? ==> id == row.podscanItunesid
    ensures NullIfZero(row.podscanItunesid).None? ==> id == NullIfZero(row.creatorItunesid)
  {
    if NullIfZero(row.podscanItunesid).Some? then row.podscanItunesid
    else if NullIfZero(row.creatorItunesid).Some? then row.creatorItunesid
    else None
  }

  /** (normalized_tone or "").strip() or None */
  function ResolveVibe(row: Row): (vibe: Option<string>)
    ensures vibe.Some? ==> vibe.value == Strip(OrEmpty(row.normalizedTone)) && vibe.value != "" && Trimmed(vibe.value)
    ensures vibe.None? <==> AllSpace(OrEmpty(row.normalizedTone))
  {
    var tone := Strip(OrEmpty(row.normalizedTone));
    if tone == "" then None else Some(tone)
  }

  function OptInt(x: Option<int>): Cell {
    if x.Some? then Int(x.value) else Null
  }

  function OptStr(x: Option<string>): Cell {
    if x.Some? then Str(x.value) else Null
  }

  function MakeExternalJson(row: Row): ExternalJson {
    ExternalJson(row.adlid, row.podcastindexId, EmittedItunesId(row), row.podscanEmail,
                 row.podscanWebsite, row.feedUrl, row.feedLink)
  }

  /** The values of one written record that depend on the row. */
  datatype ExportRecord = ExportRecord(
    ownerId: string,
    name: string,
    itunesid: Option<int>,
    vibe: Option<string>,
    region: string,
    sampleUrl: Option<string>,
    externalRef: string,
    externalJson: ExternalJson,
    createdAt: string,
    updatedAt: string)

  /** The 19 values passed to writer.writerow, in header order, with the fixed columns filled in. */
  function Cells(r: ExportRecord): (cells: Line)
    ensures |cells| == 19
  {
    [Str(r.ownerId), Str(r.name), OptInt(r.itunesid), OptStr(r.vibe), Str(r.region), Null, Int(50),
     OptStr(r.sampleUrl), Bool(true), Bool(false), Null, Null, Str(r.externalRef), Json(r.externalJson),
     Bool(false), Bool(false), Bool(false), Str(r.createdAt), Str(r.updatedAt)]
  }

  /** The record written for one query row, or None when its resolved name is empty. */
  function MapRow(ownerId: string, nowIso: string, row: Row): (out: Option<ExportRecord>)
    ensures out.None? <==> ResolveName(row) == ""
  {
    var name := ResolveName(row);
    if name == "" then None
    else
      var sampleUrl := ResolveSampleUrl(row);
      Some(ExportRecord(ownerId, name, EmittedItunesId(row), ResolveVibe(row), ResolveRegion(row),
                        if sampleUrl == "" then None else Some(sampleUrl), row.adlid,
                        MakeExternalJson(row), nowIso, nowIso))
  }

  /**
   * The resolved values of a written record: a non-empty trimmed name, an
   * itunesid that is never 0 and is the one in external_json, the resolved
   * vibe, a non-empty region, a non-empty trimmed sample url or None, external_ref = str(adlid)
   * equal created_at / updated_at timestamps, and an external_json that
   * carries the row's own adlid, podcastindex_id, email, website and feed urls.
   */
  lemma EmittedRecordValues(ownerId: string, nowIso: string, row: Row, r: ExportRecord)
    requires MapRow(ownerId, nowIso, row) == Some(r)
    ensures r.ownerId == ownerId
    ensures r.name == ResolveName(row) && r.name != "" && Trimmed(r.name)
    ensures r.itunesid == EmittedItunesId(row) && r.itunesid != Some(0)
    ensures r.externalJson.itunesid == r.itunesid
    ensures r.externalJson.adlid == row.adlid && r.externalJson.podcastindexId == row.podcastindexId
    ensures r.externalJson.email == row.podscanEmail && r.externalJson.website == row.podscanWebsite
    ensures r.externalJson.feedUrl == row.feedUrl && r.externalJson.feedLink == row.feedLink
    ensures r.vibe == ResolveVibe(row)
    ensures r.region == ResolveRegion(row) && r.region != ""
    ensures r.sampleUrl.None? <==> ResolveSampleUrl(row) == ""
    ensures r.sampleUrl.Some? ==> r.sampleUrl.value == ResolveSampleUrl(row) && Trimmed(r.sampleUrl.value)
    ensures r.externalRef == row.adlid
    ensures r.createdAt == r.updatedAt == nowIso
  {
  }

  /** The fixed columns of every written line. */
  lemma FixedColumns(r: ExportRecord)
    ensures Cells(r)[5] == Null && Cells(r)[6] == Int(50)
    ensures Cells(r)[8] == Bool(true) && Cells(r)[9] == Bool(false)
    ensures Cells(r)[10] == Null && Cells(r)[11] == Null
    ensures Cells(r)[14] == Bool(false) && Cells(r)[15] == Bool(false) && Cells(r)[16] == Bool(false)
    ensures Cells(r)[12] == Str(r.externalRef) && Cells(r)[17] == Str(r.createdAt)
  {
  }

  /** The record's values under their header columns: the line's cell i belongs to HeaderLine()'s cell i. */
  lemma RecordColumns(r: ExportRecord)
    ensures Cells(r)[0] == Str(r.ownerId) && Cells(r)[1] == Str(r.name)
    ensures Cells(r)[2] == OptInt(r.itunesid) && Cells(r)[3] == OptStr(r.vibe)
    ensures Cells(r)[4] == Str(r.region) && Cells(r)[7] == OptStr(r.sampleUrl)
    ensures Cells(r)[13] == Json(r.externalJson) && Cells(r)[18] == Str(r.updatedAt)
  {
  }

  /**
   * The line written for a row, column by column: the owner id, the resolved
   * name, itunesid, vibe and region, the sample url or NULL, str(adlid), the
   * external_json of the row, and the same timestamp as created_at and updated_at.
   */
  lemma WrittenLineColumns(ownerId: string, nowIso: string, row: Row, r: ExportRecord)
    requires MapRow(ownerId, nowIso, row) == Some(r)
    ensures LineFor(ownerId, nowIso, row) == Some(Cells(r)) && |Cells(r)| == 19
    ensures Cells(r)[0] == Str(ownerId) && Cells(r)[1] == Str(ResolveName(row))
    ensures Cells(r)[2] == OptInt(EmittedItunesId(row)) && Cells(r)[3] == OptStr(ResolveVibe(row))
    ensures Cells(r)[4] == Str(ResolveRegion(row))
    ensures Cells(r)[7] == if ResolveSampleUrl(row) == "" then Null else Str(ResolveSampleUrl(row))
    ensures Cells(r)[12] == Str(row.adlid) && Cells(r)[13] == Json(MakeExternalJson(row))
    ensures Cells(r)[17] == Cells(r)[18] == Str(nowIso)
  {
    EmittedRecordValues(ownerId, nowIso, row, r);
    RecordColumns(r);
    FixedColumns(r);
  }

  /** The name-drop law: a row whose two titles are both NULL, empty or blank writes nothing. */
  lemma BlankTitlesDropRow(ownerId: string, nowIso: string, row: Row)
    requires AllSpace(OrEmpty(row.creatorTitle)) && AllSpace(OrEmpty(row.feedTitle))
    ensures MapRow(ownerId, nowIso, row).None?
  {
  }

  /** A blank but non-empty creator title hides the feed title: the row is dropped. */
  lemma BlankCreatorTitleHidesFeedTitle(ownerId: string, nowIso: string, row: Row)
    requires Truthy(row.creatorTitle) && AllSpace(row.creatorTitle.value)
    ensures MapRow(ownerId, nowIso, row).None?
  {
  }

  // ----- the row loop, for any mapping that may skip a row -----

  /** The present results of f over s, in order. */
  function Collect<A, B>(s: seq<A>, f: A -> Option<B>): (r: seq<B>)
    ensures |r| <= |s|
  {
    if s == [] then []
    else
      var m := f(s[|s| - 1]);
      Collect(s[..|s| - 1], f) + (if m.Some? then [m.value] else [])
  }

  /** The number of elements of s for which f gives a result. */
  function CountSome<A, B>(s: seq<A>, f: A -> Option<B>): nat {
    if s == [] then 0 else CountSome(s[..|s| - 1], f) + (if f(s[|s| - 1]).Some? then 1 else 0)
  }

  lemma CollectStep<A, B>(s: seq<A>, f: A -> Option<B>, i: int)
    requires 0 <= i < |s|
    ensures Collect(s[..i + 1], f) == Collect(s[..i], f) + (if f(s[i]).Some? then [f(s[i]).value] else [])
  {
    assert s[..i + 1][..i] == s[..i];
  }

  /** One step of a loop that writes a header and then the present results. */
  lemma CollectAfterHeader<A, B>(s: seq<A>, f: A -> Option<B>, i: int, header: B, lines: seq<B>)
    requires 0 <= i < |s|
    requires lines == [header] + Collect(s[..i], f)
    ensures f(s[i]).None? ==> lines == [header] + Collect(s[..i + 1], f)
    ensures f(s[i]).Some? ==> lines + [f(s[i]).value] == [header] + Collect(s[..i + 1], f)
  {
    CollectStep(s, f, i);
    var before := Collect(s[..i], f);
    if f(s[i]).Some? {
      assert ([header] + before) + [f(s[i]).value] == [header] + (before + [f(s[i]).value]);
    } else {
      assert before + [] == before;
    }
  }

  /** Every result comes from some element of s. */
  lemma {:induction false} CollectElements<A, B>(s: seq<A>, f: A -> Option<B>)
    ensures forall y :: y in Collect(s, f) ==> exists x :: x in s && f(x) == Some(y)
  {
    if s != [] {
      var init := s[..|s| - 1];
      CollectElements(init, f);
      assert forall x :: x in init ==> x in s;
      assert s[|s| - 1] in s;
    }
  }

  lemma {:induction false} CollectCount<A, B>(s: seq<A>, f: A -> Option<B>)
    ensures |Collect(s, f)| == CountSome(s, f)
  {
    if s != [] {
      CollectCount(s[..|s| - 1], f);
    }
  }

  /** The result for s[i], when present, sits after exactly the results for s[..i]. */
  lemma {:induction false} CollectPlacement<A, B>(s: seq<A>, f: A -> Option<B>, i: int)
    requires 0 <= i < |s| && f(s[i]).Some?
    ensures CountSome(s[..i], f) < |Collect(s, f)|
    ensures Collect(s, f)[CountSome(s[..i], f)] == f(s[i]).value
  {
    var init := s[..|s| - 1];
    CollectCount(init, f);
    if i == |s| - 1 {
      assert s[..i] == init;
    } else {
      assert s[..i] == init[..i];
      CollectPlacement(init, f, i);
    }
  }

  // ----- the export's rows -----

  /** The CSV line for one row, or None when the row is skipped. */
  function LineFor(ownerId: string, nowIso: string, row: Row): Option<Line> {
    match MapRow(ownerId, nowIso, row)
    case None => None
    case Some(r) => Some(Cells(r))
  }

  function RowLine(ownerId: string, nowIso: string): Row -> Option<Line> {
    row => LineFor(ownerId, nowIso, row)
  }

  /** The records written for the rows, in row order. */
  function MapRows(ownerId: string, nowIso: string, rows: seq<Row>): seq<Line> {
    Collect(rows, RowLine(ownerId, nowIso))
  }

  /** The number of rows whose resolved name is non-empty. */
  function CountNamed(rows: seq<Row>): nat {
    if rows == [] then 0
    else CountNamed(rows[..|rows| - 1]) + (if ResolveName(rows[|rows| - 1]) == "" then 0 else 1)
  }

  lemma {:induction false} CountNamedIsCountSome(ownerId: string, nowIso: string, rows: seq<Row>)
    ensures CountNamed(rows) == CountSome(rows, RowLine(ownerId, nowIso))
  {
    if rows != [] {
      CountNamedIsCountSome(ownerId, nowIso, rows[..|rows| - 1]);
    }
  }

  /** One record per named row, and at most one per row. */
  lemma MapRowsCount(ownerId: string, nowIso: string, rows: seq<Row>)
    ensures |MapRows(ownerId, nowIso, rows)| == CountNamed(rows) <= |rows|
  {
    CollectCount(rows, RowLine(ownerId, nowIso));
    CountNamedIsCountSome(ownerId, nowIso, rows);
  }

  /** Every written line has the 19 columns and is the record of some query row. */
  lemma MapRowsLines(ownerId: string, nowIso: string, rows: seq<Row>)
    ensures forall line :: line in MapRows(ownerId, nowIso, rows) ==>
              |line| == 19
              && exists row :: row in rows && MapRow(ownerId, nowIso, row).Some?
                               && line == Cells(MapRow(ownerId, nowIso, row).value)
  {
    var f := RowLine(ownerId, nowIso);
    CollectElements(rows, f);
    forall line | line in MapRows(ownerId, nowIso, rows)
      ensures |line| == 19
      ensures exists row :: row in rows && MapRow(ownerId, nowIso, row).Some?
                            && line == Cells(MapRow(ownerId, nowIso, row).value)
    {
      var row :| row in rows && f(row) == Some(line);
      assert f(row) == LineFor(ownerId, nowIso, row);
      var m := MapRow(ownerId, nowIso, row);
      assert m.Some? && line == Cells(m.value);
    }
  }

  /**
   * Rows keep their order: the i-th row, when it has a name, is written as
   * record number CountNamed(rows[..i]), i.e. after exactly the named rows
   * before it.
   */
  lemma MapRowsPlacement(ownerId: string, nowIso: string, rows: seq<Row>, i: int)
    requires 0 <= i < |rows| && ResolveName(rows[i]) != ""
    ensures CountNamed(rows[..i]) < |MapRows(ownerId, nowIso, rows)|
    ensures MapRows(ownerId, nowIso, rows)[CountNamed(rows[..i])] == Cells(MapRow(ownerId, nowIso, rows[i]).value)
  {
    var f := RowLine(ownerId, nowIso);
    assert f(rows[i]) == LineFor(ownerId, nowIso, rows[i]);
    CollectPlacement(rows, f, i);
    CountNamedIsCountSome(ownerId, nowIso, rows[..i]);
  }

  /** The header row: 19 cells naming the columns in order. */
  function HeaderLine(): (cells: Line)
    ensures |cells| == 19
    ensures cells[0] == Str("owner_id") && cells[1] == Str("name") && cells[2] == Str("itunesid")
    ensures cells[3] == Str("vibe") && cells[4] == Str("region") && cells[5] == Str("audience_band")
    ensures cells[6] == Str("price_gbp") && cells[7] == Str("sample_url") && cells[8] == Str("available")
    ensures cells[9] == Str("can_negotiate") && cells[10] == Str("banner_image_path")
    ensures cells[11] == Str("tile_image_path") && cells[12] == Str("external_ref")
    ensures cells[13] == Str("external_json") && cells[14] == Str("is_verified")
    ensures cells[15] == Str("is_on_waitlist") && cells[16] == Str("has_surveyed")
    ensures cells[17] == Str("created_at") && cells[18] == Str("updated_at")
  {
    [Str(Header[0]), Str(Header[1]), Str(Header[2]), Str(Header[3]), Str(Header[4]), Str(Header[5]),
     Str(Header[6]), Str(Header[7]), Str(Header[8]), Str(Header[9]), Str(Header[10]), Str(Header[11]),
     Str(Header[12]), Str(Header[13]), Str(Header[14]), Str(Header[15]), Str(Header[16]), Str(Header[17]),
     Str(Header[18])]
  }

  /** The loop over the fetched rows: the header, then one record per named row. */
  method WriteCsv(ownerId: string, nowIso: string, rows: seq<Row>) returns (lines: seq<Line>)
    ensures lines == [HeaderLine()] + MapRows(ownerId, nowIso, rows)
  {
    lines := [HeaderLine()];
    for i := 0 to |rows|
      invariant lines == [HeaderLine()] + MapRows(ownerId, nowIso, rows[..i])
    {
      CollectAfterHeader(rows, RowLine(ownerId, nowIso), i, HeaderLine(), lines);
      var record := MapRow(ownerId, nowIso, rows[i]);
      assert RowLine(ownerId, nowIso)(rows[i]) == LineFor(ownerId, nowIso, rows[i]);
      if record.None? {
        continue;
      }
      lines := lines + [Cells(record.value)];
    }
    assert rows[..|rows|] == rows;
  }

  /** The command-line options the export reads; region is accepted and never used. */
  datatype ExportArgs = ExportArgs(ownerId: string, region: Option<string>, itunesid: Option<int>,
                                   limit: int, offset: int)

  datatype ExportError = DatabaseNotFound

  /** query += " LIMIT ? OFFSET ?" happens only for a positive limit. */
  function PlanFor(args: ExportArgs): (plan: QueryPlan)
    ensures plan.itunesid == args.itunesid
    ensures plan.paging.Some? <==> args.limit > 0
    ensures plan.paging.Some? ==> plan.paging.value == Paging(args.limit, args.offset)
  {
    QueryPlan(args.itunesid, if args.limit > 0 then Some(Paging(args.limit, args.offset)) else None)
  }

  /** Everything the export writes for an existing database. */
  function ExportCsv(db: Database, args: ExportArgs, nowIso: string): seq<Line> {
    [HeaderLine()] + MapRows(args.ownerId, nowIso, Query(db, PlanFor(args)))
  }

  /**
   * main: refuse a missing database, run the query, write the CSV. The
   * database is None when its path does not exist.
   */
  method RunExport(db: Option<Database>, args: ExportArgs, nowIso: string)
    returns (result: Result<seq<Line>, ExportError>)
    ensures db.None? ==> result == Err(DatabaseNotFound)
    ensures db.Some? ==> result == Ok(ExportCsv(db.value, args, nowIso))
    ensures result.Ok? ==> |result.value| >= 1 && result.value[0] == HeaderLine()
                           && |result.value| - 1 <= |Query(db.value, PlanFor(args))|
  {
    if db.None? {
      return Err(DatabaseNotFound);
    }
    var rows := Query(db.value, PlanFor(args));
    var lines := WriteCsv(args.ownerId, nowIso, rows);
    return Ok(lines);
  }

  /** The --region option changes nothing in the output. */
  lemma RegionOptionIgnored(db: Database, args: ExportArgs, region: Option<string>, nowIso: string)
    ensures ExportCsv(db, args.(region := region), nowIso) == ExportCsv(db, args, nowIso)
  {
  }

  /**
   * Every written itunesid agrees with the identifier the query filtered on,
   * except that it is empty when only the feed supplied one.
   */
  lemma EmittedIdAgreesWithQuery(j: Joined)
    ensures var id := EmittedItunesId(Project(j));
            (id.Some? ==> id == CoalescedItunesId(j))
            && (id.None? ==> CoalescedItunesId(j) == NullIfZero(FeedItunesId(j)))
  {
  }

  /** The feed's itunesId never reaches the written itunesid: swapping feeds changes nothing. */
  lemma FeedItunesIdNeverEmitted(j: Joined, itunesId: Option<int>)
    requires j.feed.Some?
    ensures EmittedItunesId(Project(j.(feed := Some(j.feed.value.(itunesId := itunesId)))))
            == EmittedItunesId(Project(j))
  {
  }

  /** A worked case: no podscan id, creator 555, feed 777 writes 555. */
  lemma CreatorIdBeatsFeedId(j: Joined)
    requires j.scan.itunesid.None? && j.creator.itunesid == Some(555)
    requires j.feed.Some? && j.feed.value.itunesId == Some(777)
    ensures CoalescedItunesId(j) == Some(555) && EmittedItunesId(Project(j)) == Some(555)
  {
  }
}
