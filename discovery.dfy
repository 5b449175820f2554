/**
 * The discovery crawler: load and deduplicate the search terms, page
 * through the search service for each term, and keep the first item seen
 * for every trackId across the whole run. The HTTP call is a parameter:
 * a function from the request's query parameters to the service's answer.
 */
module Discovery {
  import opened Wrappers
  import opened Text
  import opened FirstSeen

  /** One entry of a page's "results": its trackId (None when absent or null) and the rest of the object. */
  datatype Item = Item(trackId: Option<int>, payload: string)

  /** The query parameters of one GET to the search endpoint. */
  datatype Request = Request(term: string, country: string, media: string, limit: int, offset: int)

  /**
   * What a request yields: Failed for a non-2xx status, a transport error or
   * a body that is not JSON; otherwise the "results" member, None when the
   * key is missing or null.
   */
  datatype Response = Failed | Body(results: Option<seq<Item>>)

  datatype CrawlError = RequestFailed(request: Request)

  const Media: string := "podcast"

  // ----- load_terms -----

  /** [p.strip() for p in pieces if p.strip()] */
  function StrippedTokens(pieces: seq<string>): (tokens: seq<string>)
    ensures |tokens| <= |pieces|
    ensures forall t :: t in tokens ==> t != "" && Trimmed(t)
  {
    if pieces == [] then []
    else (if Strip(pieces[0]) != "" then [Strip(pieces[0])] else []) + StrippedTokens(pieces[1..])
  }

  /** The tokens keep the order and multiplicity of their pieces: tokenising distributes over concatenation. */
  lemma {:induction false} StrippedTokensAppend(a: seq<string>, b: seq<string>)
    ensures StrippedTokens(a + b) == StrippedTokens(a) + StrippedTokens(b)
  {
    if a == [] {
      assert a + b == b;
    } else {
      assert (a + b)[0] == a[0] && (a + b)[1..] == a[1..] + b;
      StrippedTokensAppend(a[1..], b);
    }
  }

  /** The tokens are exactly the non-empty stripped pieces. */
  lemma {:induction false} StrippedTokensMembership(pieces: seq<string>, t: string)
    ensures t in StrippedTokens(pieces) <==> t != "" && exists p :: p in pieces && Strip(p) == t
  {
    if pieces != [] {
      var head := if Strip(pieces[0]) != "" then [Strip(pieces[0])] else [];
      var rest := StrippedTokens(pieces[1..]);
      assert StrippedTokens(pieces) == head + rest;
      StrippedTokensMembership(pieces[1..], t);
      assert forall p :: p in pieces <==> p == pieces[0] || p in pieces[1..];
      if t in head {
        assert pieces[0] in pieces && Strip(pieces[0]) == t;
      }
    }
  }

  /**
   * The terms before deduplication: the stripped non-empty lines of the terms
   * file (None when no file is given or it does not exist), then the stripped
   * non-empty comma-separated pieces of --terms.
   */
  function CandidateTerms(termsFile: Option<string>, termsArg: Option<string>): seq<string> {
    (if termsFile.Some? then StrippedTokens(SplitLines(termsFile.value)) else [])
    + (if termsArg.Some? && termsArg.value != "" then StrippedTokens(Split(termsArg.value, ',')) else [])
  }

  function TermKey(t: string): string {
    t
  }

  /** load_terms: collect the candidate terms, then drop repeats keeping the first of each. */
  method LoadTerms(termsFile: Option<string>, termsArg: Option<string>) returns (uniq: seq<string>)
    ensures uniq == DedupBy(CandidateTerms(termsFile, termsArg), TermKey)
    ensures forall i, j :: 0 <= i < j < |uniq| ==> uniq[i] != uniq[j]
    ensures forall t :: t in uniq ==> t != "" && Trimmed(t)
    ensures forall t :: t in uniq <==> t in CandidateTerms(termsFile, termsArg)
  {
    var terms: seq<string> := [];
    if termsFile.Some? {
      terms := terms + StrippedTokens(SplitLines(termsFile.value));
    }
    if termsArg.Some? && termsArg.value != "" {
      terms := terms + StrippedTokens(Split(termsArg.value, ','));
    }
    assert terms == CandidateTerms(termsFile, termsArg);
    uniq := KeepFirstTerms(terms);
    UniqueTerms(termsFile, termsArg);
  }

  /** The dedup loop of load_terms: keep a term unless it was seen before, and remember it. */
  method KeepFirstTerms(terms: seq<string>) returns (uniq: seq<string>)
    ensures uniq == DedupBy(terms, TermKey)
  {
    var seen: set<string> := {};
    uniq := [];
    for i := 0 to |terms|
      invariant uniq == DedupBy(terms[..i], TermKey)
      invariant seen == Keys(terms[..i], TermKey)
    {
      var t := terms[i];
      assert terms[..i + 1] == terms[..i] + [t];
      DedupByAppend(terms[..i], t, TermKey);
      KeysAppend(terms[..i], t, TermKey);
      if t !in seen {
        uniq := uniq + [t];
        seen := seen + {t};
      }
    }
    assert terms[..|terms|] == terms;
  }

  /** Every candidate term is non-empty and carries no surrounding whitespace. */
  lemma CandidateTermsClean(termsFile: Option<string>, termsArg: Option<string>)
    ensures forall t :: t in CandidateTerms(termsFile, termsArg) ==> t != "" && Trimmed(t)
  {
    var a := if termsFile.Some? then StrippedTokens(SplitLines(termsFile.value)) else [];
    var b := if termsArg.Some? && termsArg.value != "" then StrippedTokens(Split(termsArg.value, ',')) else [];
    assert CandidateTerms(termsFile, termsArg) == a + b;
    assert forall t :: t in a + b ==> t in a || t in b;
  }

  /** Deduplicating the candidates keeps each distinct term exactly once and adds none. */
  lemma UniqueTerms(termsFile: Option<string>, termsArg: Option<string>)
    ensures var uniq := DedupBy(CandidateTerms(termsFile, termsArg), TermKey);
            && (forall i, j :: 0 <= i < j < |uniq| ==> uniq[i] != uniq[j])
            && (forall t :: t in uniq ==> t != "" && Trimmed(t))
            && (forall t :: t in uniq <==> t in CandidateTerms(termsFile, termsArg))
  {
    var terms := CandidateTerms(termsFile, termsArg);
    var uniq := DedupBy(terms, TermKey);
    DedupByKeysDistinct(terms, TermKey);
    assert forall i, j :: 0 <= i < j < |uniq| ==> TermKey(uniq[i]) != TermKey(uniq[j]);
    DedupByElementsFromInput(terms, TermKey);
    CandidateTermsClean(termsFile, termsArg);
    forall t | t in terms ensures t in uniq {
      DedupByCoversKeys(terms, TermKey, t);
    }
  }

  // ----- search_term -----

  /** The offset of the 0-based page k: it starts at 0 and grows by limit after every page. */
  function PageOffset(k: nat, limit: int): int {
    if k == 0 then 0 else PageOffset(k - 1, limit) + limit
  }

  /** The k-th page starts at offset k * limit. */
  lemma {:induction false} PageOffsetIsProduct(k: nat, limit: int)
    ensures PageOffset(k, limit) == k * limit
  {
    if k > 0 {
      PageOffsetIsProduct(k - 1, limit);
      assert (k - 1) * limit + limit == k * limit;
    }
  }

  /** The request for the 0-based page k of a term. */
  function PageRequest(term: string, country: string, limit: int, k: nat): Request {
    Request(term, country, Media, limit, PageOffset(k, limit))
  }

  /** payload.get("results", []), with a null or missing value read as no results. */
  function PageResults(resp: Response): seq<Item> {
    if resp.Body? && resp.results.Some? then resp.results.value else []
  }

  /** The answer carries at least one result, so paging goes on. */
  predicate NonEmptyPage(resp: Response) {
    resp.Body? && PageResults(resp) != []
  }

  function Prepend(items: seq<Item>, r: Result<seq<Item>, CrawlError>): Result<seq<Item>, CrawlError> {
    match r
    case Ok(rest) => Ok(items + rest)
    case Err(e) => Err(e)
  }

  lemma PrependNothing(r: Result<seq<Item>, CrawlError>)
    ensures Prepend([], r) == r
  {
    if r.Ok? {
      assert [] + r.value == r.value;
    }
  }

  lemma PrependTwice(a: seq<Item>, b: seq<Item>, r: Result<seq<Item>, CrawlError>)
    ensures Prepend(a, Prepend(b, r)) == Prepend(a + b, r)
  {
    if r.Ok? {
      assert a + (b + r.value) == (a + b) + r.value;
    }
  }

  /**
   * The items search_term yields from page k on: stop after max_pages pages or
   * at the first page without results; a failed request aborts the term.
   */
  function CrawlFrom(fetch: Request -> Response, term: string, country: string, limit: int,
                     maxPages: int, k: nat): Result<seq<Item>, CrawlError>
    decreases maxPages - k
  {
    if k >= maxPages then Ok([])
    else
      var resp := fetch(PageRequest(term, country, limit, k));
      if resp.Failed? then Err(RequestFailed(PageRequest(term, country, limit, k)))
      else if PageResults(resp) == [] then Ok([])
      else Prepend(PageResults(resp), CrawlFrom(fetch, term, country, limit, maxPages, k + 1))
  }

  function TermResults(fetch: Request -> Response, term: string, country: string, limit: int,
                       maxPages: int): Result<seq<Item>, CrawlError> {
    CrawlFrom(fetch, term, country, limit, maxPages, 0)
  }

  /** The requests search_term sends from page k on: it stops after a page that is not a non-empty answer. */
  function SentFrom(fetch: Request -> Response, term: string, country: string, limit: int,
                    maxPages: int, k: nat): seq<Request>
    decreases maxPages - k
  {
    if k >= maxPages then []
    else
      var request := PageRequest(term, country, limit, k);
      if NonEmptyPage(fetch(request)) then [request] + SentFrom(fetch, term, country, limit, maxPages, k + 1)
      else [request]
  }

  function SentRequests(fetch: Request -> Response, term: string, country: string, limit: int,
                        maxPages: int): seq<Request> {
    SentFrom(fetch, term, country, limit, maxPages, 0)
  }

  /** The results of the fetched pages, in request order. */
  function PagesOf(fetch: Request -> Response, sent: seq<Request>): seq<seq<Item>> {
    if sent == [] then [] else [PageResults(fetch(sent[0]))] + PagesOf(fetch, sent[1..])
  }

  function Flatten(pages: seq<seq<Item>>): seq<Item> {
    if pages == [] then [] else pages[0] + Flatten(pages[1..])
  }

  /** One page of CrawlFrom and SentFrom: a failure aborts, an empty page ends, otherwise paging goes on. */
  lemma CrawlStep(fetch: Request -> Response, term: string, country: string, limit: int,
                  maxPages: int, k: nat)
    requires k < maxPages
    ensures var request := PageRequest(term, country, limit, k);
            var resp := fetch(request);
            && CrawlFrom(fetch, term, country, limit, maxPages, k)
               == (if resp.Failed? then Err(RequestFailed(request))
                   else if PageResults(resp) == [] then Ok([])
                   else Prepend(PageResults(resp), CrawlFrom(fetch, term, country, limit, maxPages, k + 1)))
            && SentFrom(fetch, term, country, limit, maxPages, k)
               == (if NonEmptyPage(resp) then [request] + SentFrom(fetch, term, country, limit, maxPages, k + 1)
                   else [request])
  {
  }

  /**
   * One pass of search_term's loop, from the state before page k: the
   * request for page k is sent; a failure ends the term with that error, an
   * empty page ends it with the items so far, and otherwise the page's
   * results are added and paging goes on from page k + 1.
   */
  lemma SearchTermStep(fetch: Request -> Response, term: string, country: string, limit: int, maxPages: int,
                       k: nat, sent: seq<Request>, items: seq<Item>)
    requires k < maxPages
    requires SentRequests(fetch, term, country, limit, maxPages) == sent + SentFrom(fetch, term, country, limit, maxPages, k)
    requires TermResults(fetch, term, country, limit, maxPages)
             == Prepend(items, CrawlFrom(fetch, term, country, limit, maxPages, k))
    ensures var request := PageRequest(term, country, limit, k);
            var resp := fetch(request);
            && (NonEmptyPage(resp) ==>
                  && SentRequests(fetch, term, country, limit, maxPages)
                     == (sent + [request]) + SentFrom(fetch, term, country, limit, maxPages, k + 1)
                  && TermResults(fetch, term, country, limit, maxPages)
                     == Prepend(items + PageResults(resp), CrawlFrom(fetch, term, country, limit, maxPages, k + 1)))
            && (!NonEmptyPage(resp) ==> SentRequests(fetch, term, country, limit, maxPages) == sent + [request])
            && (resp.Failed? ==> TermResults(fetch, term, country, limit, maxPages) == Err(RequestFailed(request)))
            && (resp.Body? && PageResults(resp) == [] ==> TermResults(fetch, term, country, limit, maxPages) == Ok(items))
  {
    var request := PageRequest(term, country, limit, k);
    var resp := fetch(request);
    CrawlStep(fetch, term, country, limit, maxPages, k);
    AppendAssoc(sent, [request], SentFrom(fetch, term, country, limit, maxPages, k + 1));
    if NonEmptyPage(resp) {
      PrependTwice(items, PageResults(resp), CrawlFrom(fetch, term, country, limit, maxPages, k + 1));
    } else if resp.Body? {
      assert items + [] == items;
    }
  }

  /** One page of SentFrom: the request is sent, and paging goes on only after a non-empty page. */
  lemma SentStep(fetch: Request -> Response, term: string, country: string, limit: int,
                 maxPages: int, k: nat)
    requires k < maxPages
    ensures var request := PageRequest(term, country, limit, k);
            SentFrom(fetch, term, country, limit, maxPages, k)
            == (if NonEmptyPage(fetch(request)) then [request] + SentFrom(fetch, term, country, limit, maxPages, k + 1)
                else [request])
  {
  }

  lemma AppendAssoc<T>(a: seq<T>, b: seq<T>, c: seq<T>)
    ensures a + (b + c) == (a + b) + c
  {
  }

  /**
   * search_term as a loop over pages: what it yields is TermResults and the
   * requests it sends are SentRequests, the k-th with offset k * limit.
   */
  method SearchTerm(fetch: Request -> Response, term: string, limit: int, maxPages: int, country: string)
    returns (result: Result<seq<Item>, CrawlError>, sent: seq<Request>)
    ensures result == TermResults(fetch, term, country, limit, maxPages)
    ensures sent == SentRequests(fetch, term, country, limit, maxPages)
  {
    var offset := 0;
    var pages := 0;
    var items: seq<Item> := [];
    sent := [];
    PrependNothing(TermResults(fetch, term, country, limit, maxPages));
    while pages < maxPages
      invariant 0 <= pages
      invariant offset == PageOffset(pages, limit)
      invariant SentRequests(fetch, term, country, limit, maxPages)
                == sent + SentFrom(fetch, term, country, limit, maxPages, pages)
      invariant TermResults(fetch, term, country, limit, maxPages)
                == Prepend(items, CrawlFrom(fetch, term, country, limit, maxPages, pages))
      decreases maxPages - pages
    {
      var request := Request(term, country, Media, limit, offset);
      assert request == PageRequest(term, country, limit, pages);
      var response := fetch(request);
      SearchTermStep(fetch, term, country, limit, maxPages, pages, sent, items);
      sent := sent + [request];
      if response.Failed? {
        return Err(RequestFailed(request)), sent;
      }
      var results := PageResults(response);
      if results == [] {
        return Ok(items), sent;
      }
      items := items + results;
      offset := offset + limit;
      pages := pages + 1;
    }
    assert sent + [] == sent;
    assert items + [] == items;
    return Ok(items), sent;
  }

  /** The requests of a term from page k on: at most max_pages - k of them, the i-th for page k + i. */
  lemma {:induction false} SentFromRequests(fetch: Request -> Response, term: string, country: string,
                                            limit: int, maxPages: int, k: nat)
    ensures var sent := SentFrom(fetch, term, country, limit, maxPages, k);
            && |sent| <= (if maxPages - k < 0 then 0 else maxPages - k)
            && forall i :: 0 <= i < |sent| ==> sent[i] == PageRequest(term, country, limit, k + i)
    decreases maxPages - k
  {
    if k < maxPages {
      var request := PageRequest(term, country, limit, k);
      SentStep(fetch, term, country, limit, maxPages, k);
      if NonEmptyPage(fetch(request)) {
        SentFromRequests(fetch, term, country, limit, maxPages, k + 1);
        var rest := SentFrom(fetch, term, country, limit, maxPages, k + 1);
        var sent := [request] + rest;
        forall i | 0 < i < |sent| ensures sent[i] == PageRequest(term, country, limit, k + i) {
          assert sent[i] == rest[i - 1];
        }
      }
    }
  }

  /**
   * Where a term's requests stop: every one but the last got a non-empty
   * page, and stopping before max_pages means the last did not.
   */
  lemma {:induction false} SentFromStops(fetch: Request -> Response, term: string, country: string,
                                         limit: int, maxPages: int, k: nat)
    ensures var sent := SentFrom(fetch, term, country, limit, maxPages, k);
            && (forall i :: 0 <= i < |sent| - 1 ==> NonEmptyPage(fetch(sent[i])))
            && (|sent| < maxPages - k ==> |sent| > 0 && !NonEmptyPage(fetch(sent[|sent| - 1])))
    decreases maxPages - k
  {
    if k < maxPages {
      var request := PageRequest(term, country, limit, k);
      SentStep(fetch, term, country, limit, maxPages, k);
      if NonEmptyPage(fetch(request)) {
        SentFromStops(fetch, term, country, limit, maxPages, k + 1);
        var rest := SentFrom(fetch, term, country, limit, maxPages, k + 1);
        var sent := [request] + rest;
        forall i | 0 < i < |sent| - 1 ensures NonEmptyPage(fetch(sent[i])) {
          assert sent[i] == rest[i - 1];
        }
        if rest != [] {
          assert sent[|sent| - 1] == rest[|rest| - 1];
        }
      }
    }
  }

  lemma PagesOfCons(fetch: Request -> Response, r: Request, rest: seq<Request>)
    ensures PagesOf(fetch, [r] + rest) == [PageResults(fetch(r))] + PagesOf(fetch, rest)
  {
    assert ([r] + rest)[1..] == rest;
  }

  lemma FlattenCons(page: seq<Item>, pages: seq<seq<Item>>)
    ensures Flatten([page] + pages) == page + Flatten(pages)
  {
    assert ([page] + pages)[1..] == pages;
  }

  /** A term's crawl fails exactly when the last request it sent failed; otherwise it yields their pages in order. */
  lemma {:induction false} CrawlMatchesSent(fetch: Request -> Response, term: string, country: string,
                                            limit: int, maxPages: int, k: nat)
    ensures var sent := SentFrom(fetch, term, country, limit, maxPages, k);
            var crawl := CrawlFrom(fetch, term, country, limit, maxPages, k);
            && (crawl.Err? <==> |sent| > 0 && fetch(sent[|sent| - 1]).Failed?)
            && (crawl.Ok? ==> crawl.value == Flatten(PagesOf(fetch, sent)))
    decreases maxPages - k
  {
    if k < maxPages {
      var request := PageRequest(term, country, limit, k);
      var resp := fetch(request);
      CrawlStep(fetch, term, country, limit, maxPages, k);
      PagesOfCons(fetch, request, []);
      FlattenCons(PageResults(resp), []);
      if NonEmptyPage(resp) {
        CrawlMatchesSent(fetch, term, country, limit, maxPages, k + 1);
        var rest := SentFrom(fetch, term, country, limit, maxPages, k + 1);
        var sent := [request] + rest;
        if rest != [] {
          assert sent[|sent| - 1] == rest[|rest| - 1];
        }
        PagesOfCons(fetch, request, rest);
        FlattenCons(PageResults(resp), PagesOf(fetch, rest));
      } else {
        assert PageResults(resp) + [] == PageResults(resp);
      }
    }
  }

  /** The requests of a term: at most max_pages of them, the k-th for page k at offset k * limit. */
  lemma SearchTermRequests(fetch: Request -> Response, term: string, limit: int, maxPages: int, country: string)
    ensures var sent := SentRequests(fetch, term, country, limit, maxPages);
            && |sent| <= (if maxPages < 0 then 0 else maxPages)
            && (forall k :: 0 <= k < |sent| ==> sent[k] == PageRequest(term, country, limit, k))
            && (forall k :: 0 <= k < |sent| ==> sent[k].offset == k * limit)
  {
    var sent := SentRequests(fetch, term, country, limit, maxPages);
    SentFromRequests(fetch, term, country, limit, maxPages, 0);
    forall k | 0 <= k < |sent| ensures sent[k].offset == k * limit {
      PageOffsetIsProduct(k, limit);
    }
  }

  /** Where a term's requests stop: only after a non-empty page does another follow. */
  lemma SearchTermStops(fetch: Request -> Response, term: string, limit: int, maxPages: int, country: string)
    ensures var sent := SentRequests(fetch, term, country, limit, maxPages);
            && (forall k :: 0 <= k < |sent| - 1 ==> NonEmptyPage(fetch(sent[k])))
            && (|sent| < maxPages ==> |sent| > 0 && !NonEmptyPage(fetch(sent[|sent| - 1])))
  {
    SentFromStops(fetch, term, country, limit, maxPages, 0);
  }

  /** What a term yields: an error exactly when its last request failed, else its pages in order. */
  lemma SearchTermYields(fetch: Request -> Response, term: string, limit: int, maxPages: int, country: string)
    ensures var sent := SentRequests(fetch, term, country, limit, maxPages);
            var result := TermResults(fetch, term, country, limit, maxPages);
            && (result.Err? <==> |sent| > 0 && fetch(sent[|sent| - 1]).Failed?)
            && (result.Ok? ==> result.value == Flatten(PagesOf(fetch, sent)))
  {
    CrawlMatchesSent(fetch, term, country, limit, maxPages, 0);
  }

  /**
   * What search_term promises about one term: at most max_pages requests,
   * the k-th with offset k * limit; every request but the last got a
   * non-empty page; it stops early only at an empty page or a failure; it
   * fails exactly when the last request failed; and otherwise it yields the
   * fetched pages' results concatenated in order.
   */
  lemma SearchTermProperties(fetch: Request -> Response, term: string, limit: int, maxPages: int, country: string)
    ensures var sent := SentRequests(fetch, term, country, limit, maxPages);
            var result := TermResults(fetch, term, country, limit, maxPages);
            && |sent| <= (if maxPages < 0 then 0 else maxPages)
            && (forall k :: 0 <= k < |sent| ==> sent[k] == PageRequest(term, country, limit, k))
            && (forall k :: 0 <= k < |sent| ==> sent[k].offset == k * limit)
            && (forall k :: 0 <= k < |sent| - 1 ==> NonEmptyPage(fetch(sent[k])))
            && (|sent| < maxPages ==> |sent| > 0 && !NonEmptyPage(fetch(sent[|sent| - 1])))
            && (result.Err? <==> |sent| > 0 && fetch(sent[|sent| - 1]).Failed?)
            && (result.Ok? ==> result.value == Flatten(PagesOf(fetch, sent)))
  {
    SearchTermRequests(fetch, term, limit, maxPages, country);
    SearchTermStops(fetch, term, limit, maxPages, country);
    SearchTermYields(fetch, term, limit, maxPages, country);
  }

  // ----- main -----

  /** The results of all terms, term after term; the first failure aborts the run. */
  function AllResults(fetch: Request -> Response, terms: seq<string>, country: string, limit: int,
                      maxPages: int): Result<seq<Item>, CrawlError> {
    if terms == [] then Ok([])
    else
      match AllResults(fetch, terms[..|terms| - 1], country, limit, maxPages)
      case Err(e) => Err(e)
      case Ok(before) =>
        match TermResults(fetch, terms[|terms| - 1], country, limit, maxPages)
        case Err(e) => Err(e)
        case Ok(these) => Ok(before + these)
  }

  function TrackKey(item: Item): Option<int> {
    item.trackId
  }

  /** The requests of a run, term after term; after a failed term no more are sent. */
  function AllSent(fetch: Request -> Response, terms: seq<string>, country: string, limit: int,
                   maxPages: int): seq<Request> {
    if terms == [] then []
    else
      var init := terms[..|terms| - 1];
      if AllResults(fetch, init, country, limit, maxPages).Err? then AllSent(fetch, init, country, limit, maxPages)
      else AllSent(fetch, init, country, limit, maxPages) + SentRequests(fetch, terms[|terms| - 1], country, limit, maxPages)
  }

  /** One more term: its results and requests follow those before it, unless the run already failed. */
  lemma AllStep(fetch: Request -> Response, terms: seq<string>, i: int, country: string, limit: int, maxPages: int)
    requires 0 <= i < |terms|
    ensures var before := AllResults(fetch, terms[..i], country, limit, maxPages);
            var here := TermResults(fetch, terms[i], country, limit, maxPages);
            && AllResults(fetch, terms[..i + 1], country, limit, maxPages)
               == (if before.Err? then before
                   else if here.Err? then Err(here.error)
                   else Ok(before.value + here.value))
            && AllSent(fetch, terms[..i + 1], country, limit, maxPages)
               == (if before.Err? then AllSent(fetch, terms[..i], country, limit, maxPages)
                   else AllSent(fetch, terms[..i], country, limit, maxPages)
                        + SentRequests(fetch, terms[i], country, limit, maxPages))
  {
    assert terms[..i + 1][..i] == terms[..i];
  }

  /** A failed term makes any longer run fail too, with no further requests. */
  lemma {:induction false} AllResultsFailureSticks(fetch: Request -> Response, terms: seq<string>, n: nat,
                                                   country: string, limit: int, maxPages: int)
    requires n <= |terms|
    requires AllResults(fetch, terms[..n], country, limit, maxPages).Err?
    ensures AllResults(fetch, terms, country, limit, maxPages).Err?
    ensures AllSent(fetch, terms, country, limit, maxPages) == AllSent(fetch, terms[..n], country, limit, maxPages)
    decreases |terms| - n
  {
    if n < |terms| {
      AllStep(fetch, terms, n, country, limit, maxPages);
      AllResultsFailureSticks(fetch, terms, n + 1, country, limit, maxPages);
    } else {
      assert terms[..n] == terms;
    }
  }

  lemma ExtendPrefix<T>(before: seq<T>, items: seq<T>, j: int)
    requires 0 <= j < |items|
    ensures (before + items[..j]) + [items[j]] == before + items[..j + 1]
  {
    assert items[..j + 1] == items[..j] + [items[j]];
  }

  /**
   * The inner loop of main for one term: given the lines written and the ids
   * seen after the items `before`, skip each new item whose trackId was seen
   * and keep the others. Afterwards the lines and ids are those of
   * `before + items`.
   */
  method KeepFirstItems(ghost before: seq<Item>, items: seq<Item>,
                        seenIds0: set<Option<int>>, outLines0: seq<Item>)
    returns (outLines: seq<Item>, seenIds: set<Option<int>>)
    requires outLines0 == DedupBy(before, TrackKey)
    requires seenIds0 == Keys(before, TrackKey)
    ensures outLines == DedupBy(before + items, TrackKey)
    ensures seenIds == Keys(before + items, TrackKey)
  {
    outLines, seenIds := outLines0, seenIds0;
    ghost var upTo := before;
    for j := 0 to |items|
      invariant upTo == before + items[..j]
      invariant outLines == DedupBy(upTo, TrackKey)
      invariant seenIds == Keys(upTo, TrackKey)
    {
      var item := items[j];
      ExtendPrefix(before, items, j);
      DedupByAppend(upTo, item, TrackKey);
      KeysAppend(upTo, item, TrackKey);
      upTo := upTo + [item];
      var tid := item.trackId;
      assert TrackKey(item) == tid;
      if tid in seenIds {
        continue;
      }
      seenIds := seenIds + {tid};
      outLines := outLines + [item];
    }
    assert items[..|items|] == items;
  }

  /**
   * main: exit code 1 and nothing written when no terms remain or a request
   * fails (the exception escapes main); otherwise exit code 0 and the
   * JSONL lines hold the first item seen for every trackId, where every
   * item without one shares the single key None. The requests sent are
   * those of each term in turn, up to the one that failed.
   */
  method RunDiscovery(fetch: Request -> Response, termsFile: Option<string>, termsArg: Option<string>,
                      limitPerTerm: int, maxPages: int, country: string)
    returns (exitCode: int, written: Option<seq<Item>>, sent: seq<Request>)
    ensures var terms := DedupBy(CandidateTerms(termsFile, termsArg), TermKey);
            var all := AllResults(fetch, terms, country, limitPerTerm, maxPages);
            && (terms == [] ==> exitCode == 1 && written.None?)
            && (terms != [] && all.Err? ==> exitCode == 1 && written.None?)
            && (terms != [] && all.Ok? ==> exitCode == 0 && written == Some(DedupBy(all.value, TrackKey)))
            && sent == AllSent(fetch, terms, country, limitPerTerm, maxPages)
    ensures written.Some? ==> KeysDistinct(written.value, TrackKey)
  {
    var terms := LoadTerms(termsFile, termsArg);
    sent := [];
    if terms == [] {
      return 1, None, sent;
    }
    var seenIds: set<Option<int>> := {};
    var outLines: seq<Item> := [];
    ghost var all: seq<Item> := [];
    for i := 0 to |terms|
      invariant AllResults(fetch, terms[..i], country, limitPerTerm, maxPages) == Ok(all)
      invariant sent == AllSent(fetch, terms[..i], country, limitPerTerm, maxPages)
      invariant outLines == DedupBy(all, TrackKey)
      invariant seenIds == Keys(all, TrackKey)
    {
      AllStep(fetch, terms, i, country, limitPerTerm, maxPages);
      var found, requests := SearchTerm(fetch, terms[i], limitPerTerm, maxPages, country);
      sent := sent + requests;
      if found.Err? {
        AllResultsFailureSticks(fetch, terms, i + 1, country, limitPerTerm, maxPages);
        return 1, None, sent;
      }
      var items := found.value;
      outLines, seenIds := KeepFirstItems(all, items, seenIds, outLines);
      all := all + items;
    }
    assert terms[..|terms|] == terms;
    DedupByKeysDistinct(all, TrackKey);
    return 0, Some(outLines), sent;
  }

  /**
   * The worked case, crawl half: one term, two results per page, two pages
   * allowed; both pages are full, so the term yields all four items.
   */
  lemma TwoFullPages(fetch: Request -> Response, country: string, a: Item, b: Item, c: Item, d: Item)
    requires fetch(PageRequest("news", country, 2, 0)) == Body(Some([a, b]))
    requires fetch(PageRequest("news", country, 2, 1)) == Body(Some([c, d]))
    ensures AllResults(fetch, ["news"], country, 2, 2) == Ok([a, b, c, d])
    ensures SentRequests(fetch, "news", country, 2, 2)
            == [PageRequest("news", country, 2, 0), PageRequest("news", country, 2, 1)]
  {
    CrawlStep(fetch, "news", country, 2, 2, 0);
    CrawlStep(fetch, "news", country, 2, 2, 1);
    assert [c, d] + [] == [c, d];
    assert [a, b] + [c, d] == [a, b, c, d];
    assert TermResults(fetch, "news", country, 2, 2) == Ok([a, b, c, d]);
    assert ["news"][..0] == [];
    assert AllResults(fetch, ["news"], country, 2, 2) == Ok([] + [a, b, c, d]);
    assert [] + [a, b, c, d] == [a, b, c, d];
  }

  /** The worked case, output half: the second page repeats trackId 2, which is written once. */
  lemma RepeatedIdWrittenOnce(a: Item, b: Item, c: Item, d: Item)
    requires a.trackId == Some(1) && b.trackId == Some(2) && c.trackId == Some(2) && d.trackId == Some(3)
    ensures DedupBy([a, b, c, d], TrackKey) == [a, b, d]
  {
    var s1, s2, s3 := [a], [a, b], [a, b, c];
    assert s1[..0] == [] && s2[..1] == s1 && s3[..2] == s2 && [a, b, c, d][..3] == s3;
    assert Keys(s1, TrackKey) == {Some(1)};
    assert DedupBy(s1, TrackKey) == [a];
    assert Keys(s2, TrackKey) == {Some(1), Some(2)};
    assert DedupBy(s2, TrackKey) == [a, b];
    assert DedupBy(s3, TrackKey) == [a, b];
    assert Keys(s3, TrackKey) == {Some(1), Some(2)};
  }

  /** Items without a trackId are not all kept: they share the key None, so only the first survives. */
  lemma MissingIdsCollapse(x: Item, y: Item)
    requires x.trackId.None? && y.trackId.None?
    ensures DedupBy([x, y], TrackKey) == [x]
  {
    DedupByAppend([], x, TrackKey);
    KeysAppend([], x, TrackKey);
    assert [] + [x] == [x];
    DedupByAppend([x], y, TrackKey);
    assert [x] + [y] == [x, y];
  }
}
