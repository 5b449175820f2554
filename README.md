# Podcast export and discovery scripts, modelled in Dafny

This project models two batch scripts of a podcast-catalogue tool.

- `export_supabase_podcasts.py` reads a local SQLite catalogue and writes a CSV file for a Supabase table. It runs one SQL query that:
  - keeps one podscan record per `podcastindex_id`;
  - joins creators and feeds;
  - keeps the rows that have an iTunes identifier, optionally a given one;
  - orders by the feed's `lastUpdate`;
  - pages the result.

  Then, for each row, it resolves a display name, a sample URL, a region and an iTunes id. It drops rows that have no name and writes a 19-column record for each remaining row.
- `apple_discovery.py` reads search terms from a file and/or a comma-separated option and removes duplicates. It pages through the iTunes search service for each term. It keeps the first item it sees for every `trackId` across the run.

The modules:

| module | file | contents |
|---|---|---|
| `Wrappers` | wrappers.dfy | `Option` and `Result` |
| `Text` | text.dfy | the Python string operations the scripts use: `str.isspace`/`str.strip`, `str.upper`, `str.split(",")`, `str.splitlines` |
| `FirstSeen` | first_seen.dfy | order-preserving deduplication by a key (the `seen` set idiom), with its reference definition |
| `ExportQuery` | export_query.dfy | the SQL query as a pipeline over in-memory tables |
| `ExportRows` | export_rows.dfy | the `resolve_*` helpers, the row-mapping loop and `main` of the export |
| `Discovery` | discovery.dfy | `load_terms`, `search_term` and the deduplicating loop of `main` |

The HTTP call is the parameter `fetch: Request -> Response`. The database is a parameter of type `Option<Database>`, which is `None` when its path does not exist. The contents of the terms file are an `Option<string>`. The timestamp is the parameter `nowIso`.

Where the scripts' evident intent and their code differ, the model follows the code:
- A creator title made only of whitespace is truthy. The feed title is therefore never consulted and the row is dropped.
- The written `itunesid` falls back from podscan to creator only. The feed's `itunesId` takes part in the SQL filter but is never written.
- `--region` is parsed and never used.
- Every item without a `trackId` has the key `None`, so only the first such item is kept.

## Model

| member | source | states |
|---|---|---|
| Text.Strip | export_supabase_podcasts.py:67 | the result has no whitespace at either end; it is empty exactly when the input is all whitespace; it is never longer than the input |
| Text.StripRemovesPadding | export_supabase_podcasts.py:67 | stripping a trimmed string padded with whitespace on both sides gives back that string, so strip removes exactly the surrounding whitespace |
| Text.Upper | export_supabase_podcasts.py:154 | the length is kept; ASCII lower-case letters become upper case and every other character is unchanged |
| Text.Split | apple_discovery.py:23 | splitting on "," gives at least one piece, none containing ","; joining the pieces with "," gives back the input |
| Text.SplitLines | apple_discovery.py:21 | no line contains a line break; there are no lines exactly when the text is empty (where lines break is pinned by the SplitLinesAt lemmas) |
| Text.SplitLinesKeepsText | apple_discovery.py:21 | the lines put together equal the text with its line breaks removed |
| Text.LineEndAt | apple_discovery.py:21 | a line ends at the first line-break character, or at the end of the text |
| Text.SplitLinesOneLine | apple_discovery.py:21 | a non-empty text without line breaks is a single line |
| Text.SplitLinesAtBreak | apple_discovery.py:21 | a line-break character after a break-free prefix ends that line, unless it is the '\r' of "\r\n": splitlines(a + [c] + b) is [a] followed by splitlines(b) |
| Text.SplitLinesAtCrLf | apple_discovery.py:21 | "\r\n" after a break-free prefix ends the line as one terminator: splitlines(a + "\r\n" + b) is [a] followed by splitlines(b) |
| FirstSeen.DedupBy | apple_discovery.py:25-30 | no contract of its own; the seen-set loops (terms and trackIds) compute it, and it is pinned by DedupByIsFirstOccurrences, DedupByKeysDistinct, DedupByKeepsFirst and DedupByElementsFromInput |
| FirstSeen.KeysMembership | apple_discovery.py:25-30 | a key is in the seen set exactly when some element carries it |
| FirstSeen.DedupByAppend | apple_discovery.py:27-30 | one loop step: a new element is appended exactly when its key was not seen before |
| FirstSeen.DedupByKeys | apple_discovery.py:25-30 | the result carries the same key set as the input and is no longer than it |
| FirstSeen.DedupByIsFirstOccurrences | apple_discovery.py:25-30 | the result is the input filtered down to the first occurrence of each key, in input order |
| FirstSeen.DedupByKeysDistinct | apple_discovery.py:25-30 | no two elements of the result share a key |
| FirstSeen.DedupByKeepsFirst | apple_discovery.py:25-30 | every first occurrence of a key in the input is in the result |
| FirstSeen.DedupByElementsFromInput | apple_discovery.py:25-30 | every element of the result comes from the input |
| FirstSeen.DedupByCoversKeys | apple_discovery.py:25-30 | every key of the input is carried by some element of the result |
| ExportQuery.PodscanDedup | export_supabase_podcasts.py:89-96 | every kept podscan record is from the table and has the smallest id among the records with its podcastindex_id |
| ExportQuery.DedupFrom | export_supabase_podcasts.py:89-96 | no contract of its own; the records of the table with row number 1, in table order; pinned by DedupFromElements, PodscanDedup and PodscanDedupOnePerKey |
| ExportQuery.DedupFromElements | export_supabase_podcasts.py:89-96 | every kept record is the one with row number 1 in its partition |
| ExportQuery.RowNumberOneUnique | export_supabase_podcasts.py:91-94 | two records of one partition that both have row number 1 are the same record |
| ExportQuery.RowNumberOneExists | export_supabase_podcasts.py:91-94 | every partition that occurs has a record with row number 1 |
| ExportQuery.PodscanDedupOnePerKey | export_supabase_podcasts.py:89-96 | after deduplication each podcastindex_id occurs once if it occurred at all, and otherwise not |
| ExportQuery.FeedsWithId | export_supabase_podcasts.py:112 | the feeds matched for an id are exactly the feeds with that id |
| ExportQuery.LeftJoinFeeds | export_supabase_podcasts.py:112 | the left join gives at least one row; a matched feed has the creator's podcastindex_id; every feed with that id is joined; with no such feed the pair gets exactly one row with a NULL feed |
| ExportQuery.JoinCreator | export_supabase_podcasts.py:110-112 | every joined row of a creator pairs it with a podscan record on equal non-NULL keys and a feed as the left join gives; conversely every key-matching podscan record is joined with every feed of that id, or with a NULL feed when there is none |
| ExportQuery.Join | export_supabase_podcasts.py:110-112 | every joined row pairs a creator of the table with a podscan record of the same podcastindex_id and a feed with that id, if one exists; a row with a NULL feed occurs only when no feed has the creator's id |
| ExportQuery.JoinComplete | export_supabase_podcasts.py:110-112 | no match is lost: a creator of the table and a podscan record with equal non-NULL keys are joined with every feed of that id, or with a NULL feed when there is none |
| ExportQuery.FeedsWithIdAtMostOne | export_supabase_podcasts.py:112 | when feed ids are unique, at most one feed matches |
| ExportQuery.JoinCreatorCount | export_supabase_podcasts.py:111-112 | when feed ids are unique, a creator yields one row per podscan record with its key |
| ExportQuery.JoinOneRowPerCreator | export_supabase_podcasts.py:89-112 | after the dedup, the number of joined rows equals the number of creators with a matching podscan key: many podscan records with one key give one row per matching creator |
| ExportQuery.JoinCreatorNullKey | export_supabase_podcasts.py:111 | a creator with a NULL podcastindex_id joins nothing |
| ExportQuery.CoalescedItunesId | export_supabase_podcasts.py:113 | the COALESCE of the three NULLIF values is never 0; it is the podscan id if non-zero, else the creator id if non-zero, else the feed id if non-zero |
| ExportQuery.CoalescePrecedence | export_supabase_podcasts.py:113 | the podscan, creator, feed precedence in its three cases |
| ExportQuery.Where | export_supabase_podcasts.py:113-114 | a row is kept exactly when it has a coalesced identifier and, when a filter is given, that identifier equals the filter |
| ExportQuery.WhereAppend | export_supabase_podcasts.py:113-114 | WHERE distributes over concatenation, so the kept rows keep their order and multiplicity |
| ExportQuery.ZeroFilterMatchesNothing | export_supabase_podcasts.py:114 | an itunesid filter of 0 selects no row |
| ExportQuery.InsertDescElements | export_supabase_podcasts.py:115 | inserting one row into the ordered prefix adds exactly that row |
| ExportQuery.InsertDescSorted | export_supabase_podcasts.py:115 | inserting into a sorted sequence keeps it sorted by lastUpdate, descending |
| ExportQuery.SortDesc | export_supabase_podcasts.py:115 | the ORDER BY result is sorted by lastUpdate, descending (NULL last), and is a permutation of its input |
| ExportQuery.Window | export_supabase_podcasts.py:117-120 | without a paging clause, all rows; with one, the rows from offset on (negative offset as 0), at most limit of them (negative limit unbounded), in order |
| ExportQuery.WindowElements | export_supabase_podcasts.py:118-120 | every paged row is a row of the input |
| ExportQuery.WindowKeepsOrder | export_supabase_podcasts.py:115-120 | paging a sorted result keeps it sorted |
| ExportQuery.WindowIsSlice | export_supabase_podcasts.py:118-120 | for a positive limit the result is sorted[offset .. offset+limit], cut at the end |
| ExportQuery.Project | export_supabase_podcasts.py:97-109 | the selected columns carry the creator's adlid, podcastindex_id and itunesid and the podscan itunesid |
| ExportQuery.Candidates | export_supabase_podcasts.py:89-112 | no contract of its own; the join of the creators, the deduplicated podscan records and the feeds; pinned by JoinComplete, JoinOneRowPerCreator and SelectedProperties |
| ExportQuery.Selected | export_supabase_podcasts.py:110-120 | no contract of its own; WHERE, then ORDER BY, then LIMIT/OFFSET over the candidates; pinned by SelectedRows and SelectedProperties |
| ExportQuery.Query | export_supabase_podcasts.py:88-121 | every fetched row is the projection of a joined row that passes the WHERE clause; without paging every such row comes back; with a non-negative limit at most that many; the rows are in the order of the selected joined rows |
| ExportQuery.SelectedRows | export_supabase_podcasts.py:110-120 | the selected rows are joined rows that pass the WHERE clause; without paging they are exactly the qualifying rows, each as often as it qualifies (equal multisets); with a non-negative limit at most that many |
| ExportQuery.SelectedProperties | export_supabase_podcasts.py:88-121 | every returned row passes the WHERE clause and joins a creator of the table with the smallest-id podscan record of its key; the rows are sorted by lastUpdate descending; without paging they are a permutation of all qualifying rows |
| ExportRows.ResolveName | export_supabase_podcasts.py:66-67 | the name is trimmed; it is strip(creator_title) whenever creator_title is non-NULL and non-empty (even if it is whitespace only), and otherwise strip(feed_title or "") |
| ExportRows.ResolveSampleUrl | export_supabase_podcasts.py:58-63 | the first non-empty stripped value of website, feed link and feed url, in that order, or ""; it is trimmed |
| ExportRows.ResolveRegion | export_supabase_podcasts.py:154 | upper(podscan_region) when that is non-NULL and non-empty, else "UK"; never empty |
| ExportRows.EmittedItunesId | export_supabase_podcasts.py:159-171 | the podscan itunesid when it is non-NULL and non-zero, else the creator itunesid when it is non-NULL and non-zero, else None; never 0 |
| ExportRows.ResolveVibe | export_supabase_podcasts.py:177 | None exactly when the tone is NULL or all whitespace; otherwise Strip(tone), which is then non-empty and trimmed |
| ExportRows.Cells | export_supabase_podcasts.py:172-194 | every written record has 19 values; which value sits under which header column is stated by RecordColumns and FixedColumns |
| ExportRows.HeaderLine | export_supabase_podcasts.py:124-144 | the header line has 19 cells: owner_id, name, itunesid, vibe, region, audience_band, price_gbp, sample_url, available, can_negotiate, banner_image_path, tile_image_path, external_ref, external_json, is_verified, is_on_waitlist, has_surveyed, created_at, updated_at, in that order |
| ExportRows.MapRow | export_supabase_podcasts.py:150-153 | a row writes nothing exactly when its resolved name is empty |
| ExportRows.MakeExternalJson | export_supabase_podcasts.py:156-166 | no contract of its own; the external_json object of a row; its fields are pinned by EmittedRecordValues |
| ExportRows.EmittedRecordValues | export_supabase_podcasts.py:150-194 | a written record has the owner id, a non-empty trimmed name, the resolved non-zero itunesid, the resolved vibe, the resolved region, the sample url or None when it is "", external_ref = adlid, and created_at = updated_at = the timestamp; its external_json carries the row's adlid, podcastindex_id, email, website, feed url and feed link and the same itunesid |
| ExportRows.FixedColumns | export_supabase_podcasts.py:172-194 | audience_band and both image paths are None, price is 50, available is True, the other four flags are False |
| ExportRows.RecordColumns | export_supabase_podcasts.py:172-194 | the record's values sit under their header columns: owner_id, name, itunesid, vibe, region, sample_url, external_json and updated_at at cells 0, 1, 2, 3, 4, 7, 13 and 18 |
| ExportRows.WrittenLineColumns | export_supabase_podcasts.py:150-194 | the line written for a row holds the owner id, the resolved name, itunesid, vibe and region, the sample url or NULL, str(adlid) and the row's external_json under their columns, and the same timestamp as created_at and updated_at |
| ExportRows.BlankTitlesDropRow | export_supabase_podcasts.py:151-153 | a row whose two titles are both NULL, empty or whitespace is dropped |
| ExportRows.BlankCreatorTitleHidesFeedTitle | export_supabase_podcasts.py:66-67 | a non-empty whitespace-only creator title drops the row, whatever the feed title |
| ExportRows.Collect | export_supabase_podcasts.py:150-153 | the loop writes no more records than there are rows |
| ExportRows.CollectAfterHeader | export_supabase_podcasts.py:149-194 | one loop step after the header: a skipped row leaves the output alone, otherwise its record is appended |
| ExportRows.CollectElements | export_supabase_podcasts.py:150-194 | every written record comes from some row |
| ExportRows.CollectCount | export_supabase_podcasts.py:150-153 | exactly one record is written per row that is not skipped |
| ExportRows.CollectPlacement | export_supabase_podcasts.py:150-194 | the record of a row is written after those of the rows before it |
| ExportRows.CountNamedIsCountSome | export_supabase_podcasts.py:151-153 | the rows not skipped are the rows with a non-empty name |
| ExportRows.MapRows | export_supabase_podcasts.py:150-194 | no contract of its own; the records written for the rows, in row order; pinned by MapRowsCount, MapRowsLines and MapRowsPlacement |
| ExportRows.MapRowsCount | export_supabase_podcasts.py:150-153 | the number of written records equals the number of rows with a non-empty name, which is at most the number of rows |
| ExportRows.MapRowsLines | export_supabase_podcasts.py:150-194 | every written line has 19 columns and is the record of some query row |
| ExportRows.MapRowsPlacement | export_supabase_podcasts.py:150-194 | rows keep their order: a named row i is written as record number "named rows before i" |
| ExportRows.WriteCsv | export_supabase_podcasts.py:148-194 | the writer receives the header and then exactly the mapped records in row order |
| ExportRows.PlanFor | export_supabase_podcasts.py:117-120 | the itunesid is bound twice as the filter; the LIMIT/OFFSET clause is added exactly when the limit is positive |
| ExportRows.ExportCsv | export_supabase_podcasts.py:148-194 | no contract of its own; the header line followed by the records of the query's rows; pinned by WriteCsv and RunExport |
| ExportRows.RunExport | export_supabase_podcasts.py:74-194 | a missing database is an error; otherwise the output is the header and the mapped records of the query's rows, so never more records than query rows |
| ExportRows.RegionOptionIgnored | export_supabase_podcasts.py:34-37 | changing --region does not change the output |
| ExportRows.EmittedIdAgreesWithQuery | export_supabase_podcasts.py:167-171 | a written itunesid equals the coalesced identifier the query filtered on; a missing one means that only the feed supplied an identifier |
| ExportRows.FeedItunesIdNeverEmitted | export_supabase_podcasts.py:167-171 | changing the feed's itunesId never changes the written itunesid |
| ExportRows.CreatorIdBeatsFeedId | export_supabase_podcasts.py:113-171 | with no podscan id, creator 555 and feed 777, the query uses 555 and 555 is written |
| Discovery.StrippedTokens | apple_discovery.py:21-23 | no more tokens than pieces; every token is non-empty and trimmed |
| Discovery.StrippedTokensMembership | apple_discovery.py:21-23 | a string is a token exactly when it is non-empty and is the stripped form of some piece |
| Discovery.StrippedTokensAppend | apple_discovery.py:21-23 | tokenising distributes over concatenation, so tokens keep the order and multiplicity of their pieces |
| Discovery.CandidateTerms | apple_discovery.py:19-23 | no contract of its own; the file's tokens followed by the option's tokens; pinned by CandidateTermsClean, StrippedTokensMembership, StrippedTokensAppend and LoadTerms |
| Discovery.LoadTerms | apple_discovery.py:18-31 | the result is the first-occurrence deduplication of the file's tokens followed by the option's tokens; it has no duplicates; every term is non-empty and trimmed; a string is a term exactly when it is a candidate |
| Discovery.KeepFirstTerms | apple_discovery.py:25-30 | the dedup loop computes the first-occurrence deduplication of the terms |
| Discovery.CandidateTermsClean | apple_discovery.py:19-23 | every candidate term is non-empty and trimmed |
| Discovery.UniqueTerms | apple_discovery.py:19-31 | deduplicating the candidates keeps each distinct term once and adds none |
| Discovery.PageOffset | apple_discovery.py:35-54 | no contract of its own; the offset after k pages, starting at 0 and growing by limit per page; pinned by PageOffsetIsProduct |
| Discovery.PageOffsetIsProduct | apple_discovery.py:35-54 | page k starts at offset k * limit |
| Discovery.CrawlFrom | apple_discovery.py:34-55 | no contract of its own; the items of a term from page k on; pinned by CrawlMatchesSent and SearchTermYields |
| Discovery.TermResults | apple_discovery.py:34-55 | no contract of its own; CrawlFrom from page 0; pinned by SearchTerm and SearchTermProperties |
| Discovery.SentFrom | apple_discovery.py:35-54 | no contract of its own; the requests of a term from page k on; pinned by SentFromRequests and SentFromStops |
| Discovery.SentRequests | apple_discovery.py:35-54 | no contract of its own; SentFrom from page 0; pinned by SearchTerm and SearchTermProperties |
| Discovery.SearchTermStep | apple_discovery.py:36-54 | one pass of the loop: the request for page k is sent; a failure ends the term with that error, an empty page ends it with the items so far, and otherwise the page's results are added and paging goes on from page k + 1 |
| Discovery.SearchTerm | apple_discovery.py:34-55 | the loop yields exactly the term's crawl results and sends exactly the term's request sequence |
| Discovery.SentFromRequests | apple_discovery.py:35-54 | at most max_pages - k requests from page k on, the i-th of them the request for page k + i |
| Discovery.SentFromStops | apple_discovery.py:37-50 | every request but the last got a non-empty page; stopping before max_pages means the last did not |
| Discovery.CrawlMatchesSent | apple_discovery.py:45-52 | a term fails exactly when its last request failed; otherwise it yields the fetched pages' results concatenated in order |
| Discovery.SearchTermRequests | apple_discovery.py:35-54 | at most max_pages requests, the k-th for page k at offset k * limit |
| Discovery.SearchTermStops | apple_discovery.py:37-50 | every request but the last got a non-empty page; stopping before max_pages means the last did not |
| Discovery.SearchTermYields | apple_discovery.py:45-52 | a term fails exactly when its last request failed; otherwise it yields the fetched pages' results concatenated in order |
| Discovery.SearchTermProperties | apple_discovery.py:34-55 | for one term: at most max_pages requests, the k-th for page k at offset k * limit; no request after an empty, result-less or failed page; an error exactly when the last request failed; otherwise the pages' results concatenated in order |
| Discovery.AllResults | apple_discovery.py:75-76 | no contract of its own; the results of all terms, term after term, the first failure aborting the run; pinned by AllResultsFailureSticks, KeepFirstItems and RunDiscovery |
| Discovery.AllSent | apple_discovery.py:75-76 | no contract of its own; the requests of all terms in turn, none after a failed term; pinned by AllResultsFailureSticks and RunDiscovery |
| Discovery.AllResultsFailureSticks | apple_discovery.py:75-76 | once a term fails, the run fails and sends no further requests |
| Discovery.KeepFirstItems | apple_discovery.py:76-81 | the inner loop extends the written items and the seen ids from those of the items before to those of the items before plus this term's items |
| Discovery.RunDiscovery | apple_discovery.py:68-81 | no terms: exit code 1 and nothing written; a failed request: exit code 1 and nothing written; otherwise exit code 0 and the first item of every trackId (missing ids sharing one key) across all terms and pages in order; no two written items share a key; the requests are those of each term in turn |
| Discovery.TwoFullPages | apple_discovery.py:34-55 | one term with two full pages of two results and two pages allowed yields all four items and sends offsets 0 and 2 |
| Discovery.RepeatedIdWrittenOnce | apple_discovery.py:73-81 | items with trackIds 1, 2, 2, 3 are written as the items with 1, 2, 3 |
| Discovery.MissingIdsCollapse | apple_discovery.py:77-80 | two items without a trackId are written as the first one only |

## Left out

- Command-line parsing, the default output path and `mkdir` are not modelled. The parsed options are plain parameters.
- The SQLite engine, the connection and parameter binding are not modelled. The query is modelled by its meaning over sequences of records. Column values keep the types the query reads: integers and TEXT. SQLite's dynamic typing is not modelled, and `str(row["adlid"])` is the identity on TEXT.
- SortDesc: SQLite leaves the order of rows with equal `lastUpdate` unspecified. The model keeps their join order (a stable insertion sort) and puts NULL last, which is SQLite's DESC order. Only the non-increasing order and the permutation are stated as the query's promise.
- JoinCreatorCount, JoinOneRowPerCreator: the row counts assume that `podcastindex_feeds.id` is unique (its primary key, `UniqueFeedIds`). The schema is not shown in the source, so this is stated as a precondition instead of being proved.
- PodscanDedup: when two podscan records of one `podcastindex_id` have the same `id`, SQLite's choice is unspecified. The model takes the earlier one in table order.
- Join: the order of the joined rows before ORDER BY is unspecified in SQL. The model uses creator order, then podscan order, then feed order.
- HTTP (`requests.get`, `raise_for_status`, `res.json()`, timeouts) is not modelled. It is the parameter `fetch`, which answers `Failed` or a body whose `results` may be missing. A JSON payload that is not an object is not modelled.
- `time.sleep(0.5)` has no functional effect and is left out.
- Serialisation is not modelled: `csv.writer` quoting, `json.dumps`, the newline join of the JSONL lines and the file writes. The output is the sequence of records handed to the writer, or of the items kept.
- `datetime.utcnow()` is the `nowIso` parameter. Printed messages are left out.
- Text.Upper: only the ASCII letters a-z are upper-cased. Python's full Unicode case mapping is not modelled.
- Reading the terms file (including read errors) is not modelled. Its contents are an `Option<string>`, which is `None` when no file is given or it does not exist.
- Discovery.SearchTerm: the Python generator yields items lazily, while main is still deduplicating. The model returns all of a term's items and then deduplicates them. This gives the same output and the same requests, but the interleaving is not modelled.
