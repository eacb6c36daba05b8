/** lib/research-papers.ts: the Semantic Scholar client (search, paper
    details, batches of details), the normalisation of the records it
    returns, citation formatting, relevance ranking and the plain-text
    context the language model is given.

    The HTTP service is a parameter: a search is a function from the
    endpoint and its query parameters to a reply, a details request a
    function from the request URL to a reply. Replies arrive already decoded
    from JSON; a failure to reach the service (or to decode its body) is a
    reply of its own. */
module ResearchPapers {
  import opened Optional
  import opened Text
  import opened ResearchTypes
  import opened StableSort
  import opened RateLimiting

  const ApiBase: string := "https://api.semanticscholar.org/graph/v1"
  const SearchEndpoint: string := ApiBase + "/paper/search"

  /** The fields both requests ask for, separated by commas (the search
      request joins the list of names, the details request writes it out). */
  const PaperFieldList: string :=
    "paperId,title,abstract,year,authors,venue,citationCount,url,externalIds,s2FieldsOfStudy"

  // ---------------------------------------------------------------------
  // Records as the service sends them

  datatype ExternalIds = ExternalIds(doi: Option<string>)
  datatype RawFieldOfStudy = RawFieldOfStudy(category: string)

  /** A paper as Semantic Scholar returns it; any optional field may be missing. */
  datatype RawPaper = RawPaper(
    paperId: string,
    title: string,
    abstractText: Option<string>,
    year: Option<int>,
    authors: Option<seq<Author>>,
    venue: Option<string>,
    citationCount: Option<nat>,
    url: Option<string>,
    externalIds: Option<ExternalIds>,
    s2FieldsOfStudy: Option<seq<RawFieldOfStudy>>)

  /** `generateSemanticScholarUrl`. */
  function SemanticScholarUrl(paperId: string): (r: string)
    ensures StartsWith(r, "https://www.semanticscholar.org/paper/")
    ensures r[|"https://www.semanticscholar.org/paper/"|..] == paperId
  {
    "https://www.semanticscholar.org/paper/" + paperId
  }

  function Categories(fields: seq<RawFieldOfStudy>): (r: seq<string>)
    ensures |r| == |fields|
    ensures forall i :: 0 <= i < |fields| ==> r[i] == fields[i].category
  {
    seq(|fields|, i requires 0 <= i < |fields| => fields[i].category)
  }

  /** The mapping applied to every paper the service returns: a missing
      count is 0, a missing or empty URL is replaced by the paper's Semantic
      Scholar page, an empty DOI is dropped, missing authors are none, and
      the fields of study are reduced to their categories. */
  function NormalizePaper(raw: RawPaper): (p: ResearchPaper)
    ensures p.paperId == raw.paperId && p.title == raw.title
    ensures p.abstractText == raw.abstractText && p.year == raw.year && p.venue == raw.venue
    ensures p.citationCount == if raw.citationCount.Some? then raw.citationCount.value else 0
    ensures TruthyString(p.url)
    ensures p.url.value == if TruthyString(raw.url) then raw.url.value else SemanticScholarUrl(raw.paperId)
    ensures p.doi.Some? <==> raw.externalIds.Some? && TruthyString(raw.externalIds.value.doi)
    ensures p.doi.Some? ==> TruthyString(p.doi) && p.doi == raw.externalIds.value.doi
    ensures p.authors == if raw.authors.Some? then raw.authors.value else []
    ensures p.s2FieldsOfStudy.Some? <==> raw.s2FieldsOfStudy.Some?
    ensures raw.s2FieldsOfStudy.Some? ==> p.s2FieldsOfStudy.value == Categories(raw.s2FieldsOfStudy.value)
    ensures p.relevanceScore == None
  {
    ResearchPaper(
      raw.paperId,
      raw.title,
      raw.abstractText,
      raw.year,
      if raw.authors.Some? then raw.authors.value else [],
      raw.venue,
      if raw.citationCount.Some? && raw.citationCount.value != 0 then raw.citationCount.value else 0,
      Some(OrString(raw.url, SemanticScholarUrl(raw.paperId))),
      if raw.externalIds.Some? && TruthyString(raw.externalIds.value.doi)
      then raw.externalIds.value.doi else None,
      if raw.s2FieldsOfStudy.Some? then Some(Categories(raw.s2FieldsOfStudy.value)) else None,
      None)
  }

  /** The record the service would send for an already normalised paper. */
  function AsRaw(p: ResearchPaper): RawPaper {
    RawPaper(p.paperId, p.title, p.abstractText, p.year, Some(p.authors), p.venue,
      Some(p.citationCount), p.url, Some(ExternalIds(p.doi)),
      if p.s2FieldsOfStudy.Some?
      then Some(seq(|p.s2FieldsOfStudy.value|, i requires 0 <= i < |p.s2FieldsOfStudy.value| =>
                    RawFieldOfStudy(p.s2FieldsOfStudy.value[i])))
      else None)
  }

  /** Normalising is idempotent: a normalised paper sent back through the
      mapping comes out unchanged. */
  lemma NormalizeIdempotent(raw: RawPaper)
    ensures NormalizePaper(AsRaw(NormalizePaper(raw))) == NormalizePaper(raw)
  {
    var p := NormalizePaper(raw);
    var q := NormalizePaper(AsRaw(p));
    if p.s2FieldsOfStudy.Some? {
      assert q.s2FieldsOfStudy.value == p.s2FieldsOfStudy.value;
    }
  }

  function NormalizeAll(raws: seq<RawPaper>): (r: seq<ResearchPaper>)
    ensures |r| == |raws|
    ensures forall i :: 0 <= i < |raws| ==> r[i] == NormalizePaper(raws[i])
  {
    seq(|raws|, i requires 0 <= i < |raws| => NormalizePaper(raws[i]))
  }

  // ---------------------------------------------------------------------
  // Replies of the service

  /** A decoded HTTP reply, or a request that never produced one. */
  datatype Reply<B> = Response(status: int, statusText: string, body: B) | Unreachable(message: string)

  /** `response.ok`. */
  predicate IsOk(status: int) {
    200 <= status <= 299
  }

  /** The body of a search reply. */
  datatype SearchBody = SearchBody(data: Option<seq<RawPaper>>, total: Option<int>, next: Option<int>)

  /** What `searchResearchPapers` resolves to. */
  datatype SearchResult = SearchResult(papers: seq<ResearchPaper>, total: int, next: Option<int>)

  /** A value, or the message of the error thrown instead. */
  datatype Outcome<T> = Success(value: T) | Failure(message: string)

  const RateLimitMessage: string := "Rate limit exceeded. Please try again in a moment."

  /** The error thrown for a reply that is not ok (other than a missing paper). */
  function HttpFailure(status: int, statusText: string): (m: string)
    ensures status == 429 ==> m == RateLimitMessage
    ensures status != 429 ==>
      m == "Semantic Scholar API error: " + IntToString(status) + " " + statusText
  {
    if status == 429 then RateLimitMessage
    else "Semantic Scholar API error: " + IntToString(status) + " " + statusText
  }

  /** The result of a successful search: `data.data || []` normalised,
      `data.total || 0` and `data.next || undefined`. */
  function SearchPage(body: SearchBody): (r: SearchResult)
    ensures r.papers == NormalizeAll(if body.data.Some? then body.data.value else [])
    ensures r.total == if body.total.Some? then body.total.value else 0
    ensures r.next.Some? <==> TruthyInt(body.next)
    ensures r.next.Some? ==> r.next == body.next
  {
    SearchResult(
      NormalizeAll(if body.data.Some? then body.data.value else []),
      if TruthyInt(body.total) then body.total.value else 0,
      if TruthyInt(body.next) then body.next else None)
  }

  /** How a search ends for a given reply: the page when the status is ok,
      otherwise the error `searchResearchPapers` throws. */
  function SearchOutcome(reply: Reply<SearchBody>): (r: Outcome<SearchResult>)
    ensures r.Success? <==> reply.Response? && IsOk(reply.status)
    ensures r.Success? ==> r.value == SearchPage(reply.body)
    ensures reply.Response? && !IsOk(reply.status) ==> r == Failure(HttpFailure(reply.status, reply.statusText))
    ensures reply.Unreachable? ==> r == Failure(reply.message)
  {
    match reply
    case Unreachable(message) => Failure(message)
    case Response(status, statusText, body) =>
      if IsOk(status) then Success(SearchPage(body)) else Failure(HttpFailure(status, statusText))
  }

  /** Every paper of a successful search carries a non-empty URL. */
  lemma SearchedPapersHaveUrls(reply: Reply<SearchBody>)
    requires SearchOutcome(reply).Success?
    ensures forall p :: p in SearchOutcome(reply).value.papers ==> TruthyString(p.url)
  {
  }

  // ---------------------------------------------------------------------
  // Search parameters

  /** The mandatory parameters; `limit` defaults to 10 and `offset` to 0. */
  function BaseParams(p: PaperSearchParams): seq<(string, string)> {
    [("query", p.query),
     ("limit", IntToString(if p.limit.Some? then p.limit.value else 10)),
     ("offset", IntToString(if p.offset.Some? then p.offset.value else 0)),
     ("fields", PaperFieldList)]
  }

  function FieldOfStudyParams(fields: seq<string>): (r: seq<(string, string)>)
    ensures |r| == |fields|
    ensures forall i :: 0 <= i < |fields| ==> r[i] == ("fieldsOfStudy", fields[i])
  {
    seq(|fields|, i requires 0 <= i < |fields| => ("fieldsOfStudy", fields[i]))
  }

  function YearParams(p: PaperSearchParams): seq<(string, string)> {
    if TruthyString(p.year) then [("year", p.year.value)] else []
  }

  function FieldsOfStudyParams(p: PaperSearchParams): seq<(string, string)> {
    if p.fieldsOfStudy.Some? then FieldOfStudyParams(p.fieldsOfStudy.value) else []
  }

  function VenueParams(p: PaperSearchParams): seq<(string, string)> {
    if TruthyString(p.venue) then [("venue", p.venue.value)] else []
  }

  function MinCitationParams(p: PaperSearchParams): seq<(string, string)> {
    if TruthyInt(p.minCitationCount) then [("minCitationCount", IntToString(p.minCitationCount.value))] else []
  }

  /** The query parameters of a search, in the order they are appended: the
      mandatory ones, then each optional filter that is set (`year`, every
      field of study, `venue`, `minCitationCount`). */
  function SearchParamsOf(p: PaperSearchParams): seq<(string, string)> {
    BaseParams(p) + YearParams(p) + FieldsOfStudyParams(p) + VenueParams(p) + MinCitationParams(p)
  }

  /** `new URLSearchParams({...})` followed by the conditional `append`s. */
  method BuildSearchParams(p: PaperSearchParams) returns (params: seq<(string, string)>)
    ensures params == SearchParamsOf(p)
  {
    var limit := if p.limit.Some? then p.limit.value else 10;
    var offset := if p.offset.Some? then p.offset.value else 0;
    params := [("query", p.query), ("limit", IntToString(limit)), ("offset", IntToString(offset)),
               ("fields", PaperFieldList)];
    if TruthyString(p.year) {
      params := params + [("year", p.year.value)];
    }
    ghost var beforeFields := params;
    assert beforeFields == BaseParams(p) + YearParams(p);
    if p.fieldsOfStudy.Some? {
      var fields := p.fieldsOfStudy.value;
      var i := 0;
      while i < |fields|
        invariant 0 <= i <= |fields|
        invariant params == beforeFields + FieldOfStudyParams(fields[..i])
      {
        assert FieldOfStudyParams(fields[..i + 1]) == FieldOfStudyParams(fields[..i]) + [("fieldsOfStudy", fields[i])];
        params := params + [("fieldsOfStudy", fields[i])];
        i := i + 1;
      }
      assert fields[..|fields|] == fields;
    }
    assert params == beforeFields + FieldsOfStudyParams(p);
    if TruthyString(p.venue) {
      params := params + [("venue", p.venue.value)];
    }
    if TruthyInt(p.minCitationCount) {
      params := params + [("minCitationCount", IntToString(p.minCitationCount.value))];
    }
  }

  /** `params.getAll(key)`: the values under `key`, in order. */
  function ValuesFor(params: seq<(string, string)>, key: string): seq<string> {
    if params == [] then []
    else (if params[0].0 == key then [params[0].1] else []) + ValuesFor(params[1..], key)
  }

  lemma {:induction false} ValuesForAppend(a: seq<(string, string)>, b: seq<(string, string)>, key: string)
    ensures ValuesFor(a + b, key) == ValuesFor(a, key) + ValuesFor(b, key)
    decreases |a|
  {
    if a == [] {
      assert a + b == b;
    } else {
      var ab := a + b;
      assert ab[0] == a[0];
      assert ab[1..] == a[1..] + b;
      ValuesForAppend(a[1..], b, key);
      var head := if a[0].0 == key then [a[0].1] else [];
      assert ValuesFor(ab, key) == head + ValuesFor(a[1..] + b, key);
      assert ValuesFor(a, key) == head + ValuesFor(a[1..], key);
    }
  }

  lemma {:induction false} ValuesForFieldsOfStudy(fields: seq<string>, key: string)
    ensures ValuesFor(FieldOfStudyParams(fields), key) == if key == "fieldsOfStudy" then fields else []
    decreases |fields|
  {
    if fields != [] {
      assert FieldOfStudyParams(fields)[1..] == FieldOfStudyParams(fields[1..]);
      ValuesForFieldsOfStudy(fields[1..], key);
    }
  }

  lemma ValuesForSingle(x: (string, string), key: string)
    ensures ValuesFor([x], key) == if x.0 == key then [x.1] else []
  {
    assert [x][1..] == [];
  }

  lemma ValuesForBase(p: PaperSearchParams, key: string)
    ensures ValuesFor(BaseParams(p), key) ==
              (if key == "query" then [p.query] else [])
              + (if key == "limit" then [IntToString(if p.limit.Some? then p.limit.value else 10)] else [])
              + (if key == "offset" then [IntToString(if p.offset.Some? then p.offset.value else 0)] else [])
              + (if key == "fields" then [PaperFieldList] else [])
  {
    var b := BaseParams(p);
    assert b == [b[0]] + [b[1]] + [b[2]] + [b[3]];
    ValuesForAppend([b[0]], [b[1]], key);
    ValuesForAppend([b[0]] + [b[1]], [b[2]], key);
    ValuesForAppend([b[0]] + [b[1]] + [b[2]], [b[3]], key);
    ValuesForSingle(b[0], key);
    ValuesForSingle(b[1], key);
    ValuesForSingle(b[2], key);
    ValuesForSingle(b[3], key);
  }

  lemma SearchParamsSplit(p: PaperSearchParams, key: string)
    ensures ValuesFor(SearchParamsOf(p), key) ==
              ValuesFor(BaseParams(p), key) + ValuesFor(YearParams(p), key) + ValuesFor(FieldsOfStudyParams(p), key)
              + ValuesFor(VenueParams(p), key) + ValuesFor(MinCitationParams(p), key)
    ensures ValuesFor(BaseParams(p), key) ==
              (if key == "query" then [p.query] else [])
              + (if key == "limit" then [IntToString(if p.limit.Some? then p.limit.value else 10)] else [])
              + (if key == "offset" then [IntToString(if p.offset.Some? then p.offset.value else 0)] else [])
              + (if key == "fields" then [PaperFieldList] else [])
    ensures ValuesFor(YearParams(p), key) == if key == "year" && TruthyString(p.year) then [p.year.value] else []
    ensures ValuesFor(FieldsOfStudyParams(p), key) ==
              if key == "fieldsOfStudy" && p.fieldsOfStudy.Some? then p.fieldsOfStudy.value else []
    ensures ValuesFor(VenueParams(p), key) == if key == "venue" && TruthyString(p.venue) then [p.venue.value] else []
    ensures ValuesFor(MinCitationParams(p), key) ==
              if key == "minCitationCount" && TruthyInt(p.minCitationCount)
              then [IntToString(p.minCitationCount.value)] else []
  {
    var base, y, f, v := BaseParams(p), YearParams(p), FieldsOfStudyParams(p), VenueParams(p);
    ValuesForAppend(base, y, key);
    ValuesForAppend(base + y, f, key);
    ValuesForAppend(base + y + f, v, key);
    ValuesForAppend(base + y + f + v, MinCitationParams(p), key);
    ValuesForBase(p, key);
    if TruthyString(p.year) {
      ValuesForSingle(("year", p.year.value), key);
    }
    if TruthyString(p.venue) {
      ValuesForSingle(("venue", p.venue.value), key);
    }
    if TruthyInt(p.minCitationCount) {
      ValuesForSingle(("minCitationCount", IntToString(p.minCitationCount.value)), key);
    }
    if p.fieldsOfStudy.Some? {
      ValuesForFieldsOfStudy(p.fieldsOfStudy.value, key);
    }
  }

  /** What the service reads from the mandatory parameters of a search: the
      query, the limit (10 by default), the offset (0 by default) and the
      field list, each once. */
  lemma SearchParamsMandatory(p: PaperSearchParams)
    ensures ValuesFor(SearchParamsOf(p), "query") == [p.query]
    ensures ValuesFor(SearchParamsOf(p), "limit") == [IntToString(if p.limit.Some? then p.limit.value else 10)]
    ensures ValuesFor(SearchParamsOf(p), "offset") == [IntToString(if p.offset.Some? then p.offset.value else 0)]
    ensures ValuesFor(SearchParamsOf(p), "fields") == [PaperFieldList]
  {
    SearchParamsQuery(p);
    SearchParamsLimit(p);
    SearchParamsOffset(p);
    SearchParamsFields(p);
  }

  lemma SearchParamsQuery(p: PaperSearchParams)
    ensures ValuesFor(SearchParamsOf(p), "query") == [p.query]
  {
    SearchParamsSplit(p, "query");
  }

  lemma SearchParamsLimit(p: PaperSearchParams)
    ensures ValuesFor(SearchParamsOf(p), "limit") == [IntToString(if p.limit.Some? then p.limit.value else 10)]
  {
    SearchParamsSplit(p, "limit");
  }

  lemma SearchParamsOffset(p: PaperSearchParams)
    ensures ValuesFor(SearchParamsOf(p), "offset") == [IntToString(if p.offset.Some? then p.offset.value else 0)]
  {
    SearchParamsSplit(p, "offset");
  }

  lemma SearchParamsFields(p: PaperSearchParams)
    ensures ValuesFor(SearchParamsOf(p), "fields") == [PaperFieldList]
  {
    SearchParamsSplit(p, "fields");
  }

  lemma SearchParamsYear(p: PaperSearchParams)
    ensures ValuesFor(SearchParamsOf(p), "year") == if TruthyString(p.year) then [p.year.value] else []
  {
    SearchParamsSplit(p, "year");
  }

  lemma SearchParamsVenue(p: PaperSearchParams)
    ensures ValuesFor(SearchParamsOf(p), "venue") == if TruthyString(p.venue) then [p.venue.value] else []
  {
    SearchParamsSplit(p, "venue");
  }

  lemma SearchParamsFieldsOfStudy(p: PaperSearchParams)
    ensures ValuesFor(SearchParamsOf(p), "fieldsOfStudy") ==
              if p.fieldsOfStudy.Some? then p.fieldsOfStudy.value else []
  {
    SearchParamsSplit(p, "fieldsOfStudy");
  }

  lemma SearchParamsMinCitation(p: PaperSearchParams)
    ensures ValuesFor(SearchParamsOf(p), "minCitationCount") ==
              if TruthyInt(p.minCitationCount) then [IntToString(p.minCitationCount.value)] else []
  {
    SearchParamsSplit(p, "minCitationCount");
  }

  /** Each filter reaches the service exactly when it is set; the fields of
      study arrive all of them, in order. */
  lemma SearchParamsFilters(p: PaperSearchParams)
    ensures ValuesFor(SearchParamsOf(p), "year") == if TruthyString(p.year) then [p.year.value] else []
    ensures ValuesFor(SearchParamsOf(p), "fieldsOfStudy") ==
              if p.fieldsOfStudy.Some? then p.fieldsOfStudy.value else []
    ensures ValuesFor(SearchParamsOf(p), "venue") == if TruthyString(p.venue) then [p.venue.value] else []
    ensures ValuesFor(SearchParamsOf(p), "minCitationCount") ==
              if TruthyInt(p.minCitationCount) then [IntToString(p.minCitationCount.value)] else []
  {
    SearchParamsYear(p);
    SearchParamsVenue(p);
    SearchParamsFieldsOfStudy(p);
    SearchParamsMinCitation(p);
  }

  // ---------------------------------------------------------------------
  // Requests

  /** `searchResearchPapers`: waits on the shared limiter, then asks the
      service. The outcome is determined by the reply to exactly the
      parameters `SearchParamsOf(params)`. */
  method SearchResearchPapers(limiter: RateLimiter, clock: Clock,
                              service: (string, seq<(string, string)>) -> Reply<SearchBody>,
                              params: PaperSearchParams)
    returns (r: Outcome<SearchResult>)
    modifies limiter`lastRequestTime, clock
    ensures r == SearchOutcome(service(SearchEndpoint, SearchParamsOf(params)))
    ensures limiter.lastRequestTime == clock.millis
    ensures limiter.lastRequestTime as real >= old(limiter.lastRequestTime) as real + limiter.minInterval
  {
    var _ := limiter.WaitIfNeeded(clock);
    var query := BuildSearchParams(params);
    r := SearchOutcome(service(SearchEndpoint, query));
  }

  function DetailsUrl(paperId: string): string {
    ApiBase + "/paper/" + paperId + "?fields=" + PaperFieldList
  }

  /** What `getPaperDetails` resolves to for a reply: the normalised paper
      when the status is ok, and `null` otherwise (a 404 directly, every
      other failure through the `catch`). */
  function PaperDetailsOf(reply: Reply<RawPaper>): (r: Option<ResearchPaper>)
    ensures r.Some? <==> reply.Response? && IsOk(reply.status)
    ensures r.Some? ==> r.value == NormalizePaper(reply.body)
  {
    match reply
    case Unreachable(_) => None
    case Response(status, _, body) => if IsOk(status) then Some(NormalizePaper(body)) else None
  }

  /** `getPaperDetails`: never throws. */
  method GetPaperDetails(limiter: RateLimiter, clock: Clock, fetch: string -> Reply<RawPaper>, paperId: string)
    returns (r: Option<ResearchPaper>)
    modifies limiter`lastRequestTime, clock
    ensures r == PaperDetailsOf(fetch(DetailsUrl(paperId)))
    ensures limiter.lastRequestTime == clock.millis
    ensures limiter.lastRequestTime as real >= old(limiter.lastRequestTime) as real + limiter.minInterval
  {
    var _ := limiter.WaitIfNeeded(clock);
    r := PaperDetailsOf(fetch(DetailsUrl(paperId)));
  }

  /** The details of each identifier, in order. */
  function AllDetails(fetch: string -> Reply<RawPaper>, paperIds: seq<string>): (r: seq<Option<ResearchPaper>>)
    ensures |r| == |paperIds|
    ensures forall i :: 0 <= i < |paperIds| ==> r[i] == PaperDetailsOf(fetch(DetailsUrl(paperIds[i])))
    decreases |paperIds|
  {
    if paperIds == [] then []
    else AllDetails(fetch, paperIds[..|paperIds| - 1]) + [PaperDetailsOf(fetch(DetailsUrl(paperIds[|paperIds| - 1])))]
  }

  /** `n` gaps of `gap`, added one at a time; it is `n * gap`
      (`SpreadIsProduct`). */
  function Spread(n: nat, gap: real): real {
    if n == 0 then 0.0 else Spread(n - 1, gap) + gap
  }

  lemma SpreadStep(before: real, after: real, start: real, gap: real, i: nat)
    requires before >= start + Spread(i, gap) && after >= before + gap
    ensures after >= start + Spread(i + 1, gap)
  {
  }

  lemma {:induction false} SpreadIsProduct(n: nat, gap: real)
    ensures Spread(n, gap) == n as real * gap
  {
    if n > 0 {
      SpreadIsProduct(n - 1, gap);
    }
  }

  /** `batchGetPaperDetails`: one details request after another, one result
      per identifier in the same order; the requests are spread at least
      `minInterval` apart, so the batch takes at least that long per paper. */
  method BatchGetPaperDetails(limiter: RateLimiter, clock: Clock, fetch: string -> Reply<RawPaper>,
                              paperIds: seq<string>)
    returns (results: seq<Option<ResearchPaper>>)
    modifies limiter`lastRequestTime, clock
    ensures results == AllDetails(fetch, paperIds)
    ensures limiter.lastRequestTime as real >=
              old(limiter.lastRequestTime) as real + Spread(|paperIds|, limiter.minInterval)
  {
    ghost var start, gap := limiter.lastRequestTime as real, limiter.minInterval;
    results := [];
    var i := 0;
    while i < |paperIds|
      invariant 0 <= i <= |paperIds|
      invariant results == AllDetails(fetch, paperIds[..i])
      invariant limiter.lastRequestTime as real >= start + Spread(i, gap)
    {
      ghost var before := limiter.lastRequestTime as real;
      var paper := GetPaperDetails(limiter, clock, fetch, paperIds[i]);
      SpreadStep(before, limiter.lastRequestTime as real, start, gap, i);
      assert paperIds[..i + 1][..i] == paperIds[..i];
      results := results + [paper];
      i := i + 1;
    }
    assert paperIds[..|paperIds|] == paperIds;
  }

  // ---------------------------------------------------------------------
  // Citations

  function Names(authors: seq<Author>): (r: seq<string>)
    ensures |r| == |authors|
    ensures forall i :: 0 <= i < |authors| ==> r[i] == authors[i].name
  {
    seq(|authors|, i requires 0 <= i < |authors| => authors[i].name)
  }

  const UnknownAuthors: string := "Unknown Authors"
  const DefaultMaxAuthors: nat := 3

  /** `formatAuthors`: the names joined by ", ", or the first `maxAuthors`
      of them followed by " et al." when there are more. */
  function FormatAuthors(authors: seq<Author>, maxAuthors: nat): (r: string)
    ensures authors == [] ==> r == UnknownAuthors
    ensures 0 < |authors| <= maxAuthors ==> r == Join(Names(authors), ", ")
    ensures |authors| > maxAuthors ==> EndsWith(r, " et al.")
  {
    if |authors| == 0 then UnknownAuthors
    else if |authors| <= maxAuthors then Join(Names(authors), ", ")
    else Join(Names(authors[..maxAuthors]), ", ") + " et al."
  }

  /** A longer list is the list cut to its first `maxAuthors` names, then
      " et al.". */
  lemma FormatAuthorsTruncates(authors: seq<Author>, maxAuthors: nat)
    requires |authors| > maxAuthors > 0
    ensures FormatAuthors(authors, maxAuthors) == FormatAuthors(authors[..maxAuthors], maxAuthors) + " et al."
  {
  }

  /** The first author is always named first. */
  lemma FormatAuthorsNamesFirstAuthor(authors: seq<Author>, maxAuthors: nat)
    requires authors != [] && maxAuthors > 0
    ensures StartsWith(FormatAuthors(authors, maxAuthors), authors[0].name)
  {
    if |authors| <= maxAuthors {
      JoinStartsWithFirst(Names(authors), ", ");
    } else {
      JoinStartsWithFirst(Names(authors[..maxAuthors]), ", ");
    }
  }

  /** A limit of zero names nobody: the text is " et al." alone. */
  lemma FormatAuthorsZeroLimit(authors: seq<Author>)
    requires authors != []
    ensures FormatAuthors(authors, 0) == " et al."
  {
  }

  /** "(year)", or "(n.d.)" for a missing (or zero) year. */
  function ApaYear(year: Option<int>): string {
    if TruthyInt(year) then "(" + IntToString(year.value) + ")" else "(n.d.)"
  }

  function DoiLink(doi: string): string {
    "https://doi.org/" + doi
  }

  /** Markdown emphasis. */
  function Italic(text: string): string {
    "*" + text + "*"
  }

  /** "Authors (year). Title." */
  function ApaHead(p: ResearchPaper): string {
    FormatAuthors(p.authors, DefaultMaxAuthors) + " " + ApaYear(p.year) + ". " + p.title + "."
  }

  /** The link of a citation: the DOI link when there is a DOI, else the
      URL, else nothing. */
  function ApaLink(p: ResearchPaper): string {
    if TruthyString(p.doi) then DoiLink(p.doi.value) else OrString(p.url, "")
  }

  /** `generateAPACitation`: the head, then " *venue*." when there is a
      venue, then " https://doi.org/<doi>" when there is a DOI, else " <url>"
      when there is a URL. */
  function ApaCitation(p: ResearchPaper): (r: string)
    ensures StartsWith(r, ApaHead(p))
    ensures TruthyString(p.venue) ==> StartsWith(r, ApaHead(p) + " " + Italic(p.venue.value) + ".")
    ensures TruthyString(p.doi) ==> EndsWith(r, " " + DoiLink(p.doi.value))
    ensures !TruthyString(p.doi) && TruthyString(p.url) ==> EndsWith(r, " " + p.url.value)
    ensures TruthyString(p.venue) && TruthyString(p.doi) ==>
              r == ApaHead(p) + " " + Italic(p.venue.value) + "." + " " + DoiLink(p.doi.value)
    ensures TruthyString(p.venue) && !TruthyString(p.doi) && TruthyString(p.url) ==>
              r == ApaHead(p) + " " + Italic(p.venue.value) + "." + " " + p.url.value
    ensures TruthyString(p.venue) && !TruthyString(p.doi) && !TruthyString(p.url) ==>
              r == ApaHead(p) + " " + Italic(p.venue.value) + "."
    ensures !TruthyString(p.venue) && TruthyString(p.doi) ==> r == ApaHead(p) + " " + DoiLink(p.doi.value)
    ensures !TruthyString(p.venue) && !TruthyString(p.doi) && TruthyString(p.url) ==> r == ApaHead(p) + " " + p.url.value
    ensures !TruthyString(p.doi) && !TruthyString(p.url) && !TruthyString(p.venue) ==> r == ApaHead(p)
  {
    var head := ApaHead(p);
    var link := ApaLink(p);
    if TruthyString(p.venue) then
      var withVenue := head + " " + Italic(p.venue.value) + ".";
      assert withVenue == head + (" " + Italic(p.venue.value) + ".");
      StartsWithConcat(head, " " + Italic(p.venue.value) + ".");
      if link != "" then
        var r := withVenue + " " + link;
        assert r == withVenue + (" " + link);
        StartsWithConcat(withVenue, " " + link);
        EndsWithConcat(withVenue, " " + link);
        StartsWithTrans(r, withVenue, head);
        r
      else withVenue
    else if link != "" then
      var r := head + " " + link;
      assert r == head + (" " + link);
      StartsWithConcat(head, " " + link);
      EndsWithConcat(head, " " + link);
      r
    else
      StartsWithConcat(head, "");
      assert head + "" == head;
      head
  }

  /** `generateAPACitation` as written: the citation grows by `+=`. */
  method GenerateApaCitation(p: ResearchPaper) returns (citation: string)
    ensures citation == ApaCitation(p)
  {
    var authors := FormatAuthors(p.authors, DefaultMaxAuthors);
    var year := ApaYear(p.year);
    var venue := if TruthyString(p.venue) then Italic(p.venue.value) else "";
    var doi := if TruthyString(p.doi) then DoiLink(p.doi.value) else OrString(p.url, "");
    citation := authors + " " + year + ". " + p.title + ".";
    if venue != "" {
      citation := citation + " " + venue + ".";
    }
    if doi != "" {
      citation := citation + " " + doi;
    }
  }

  // ---------------------------------------------------------------------
  // Relevance ranking

  /** `query.toLowerCase().split(/\s+/)`. */
  function QueryTerms(query: string): (terms: seq<string>)
    ensures |terms| >= 1
    ensures forall k :: 0 <= k < |terms| ==> NoWhitespace(terms[k])
  {
    Fields(Lower(query))
  }

  /** The points one query term earns: 3 when the title contains it, and 1
      more when the abstract does. */
  function TermScore(titleLower: string, abstractLower: string, term: string): (s: real)
    ensures s == 0.0 || s == 1.0 || s == 3.0 || s == 4.0
    ensures s >= 3.0 <==> Contains(titleLower, term)
  {
    (if Contains(titleLower, term) then 3.0 else 0.0) + (if Contains(abstractLower, term) then 1.0 else 0.0)
  }

  /** The points of all query terms, counted in order. */
  function KeywordScore(titleLower: string, abstractLower: string, terms: seq<string>): real
    decreases |terms|
  {
    if terms == [] then 0.0
    else KeywordScore(titleLower, abstractLower, terms[..|terms| - 1])
         + TermScore(titleLower, abstractLower, terms[|terms| - 1])
  }

  lemma {:induction false} KeywordScoreBounds(titleLower: string, abstractLower: string, terms: seq<string>)
    ensures 0.0 <= KeywordScore(titleLower, abstractLower, terms) <= 4.0 * |terms| as real
    decreases |terms|
  {
    if terms != [] {
      KeywordScoreBounds(titleLower, abstractLower, terms[..|terms| - 1]);
    }
  }

  /** The points of a query are the sum of the points of its parts. */
  lemma {:induction false} KeywordScoreAppend(titleLower: string, abstractLower: string, a: seq<string>, b: seq<string>)
    ensures KeywordScore(titleLower, abstractLower, a + b)
            == KeywordScore(titleLower, abstractLower, a) + KeywordScore(titleLower, abstractLower, b)
    decreases |b|
  {
    if b == [] {
      assert a + b == a;
    } else {
      assert (a + b)[..|a + b| - 1] == a + b[..|b| - 1];
      KeywordScoreAppend(titleLower, abstractLower, a, b[..|b| - 1]);
    }
  }

  /** An empty term occurs in every text, so it earns the full 4 points. */
  lemma {:induction false} EmptyTermsScoreFully(titleLower: string, abstractLower: string, terms: seq<string>)
    requires forall k :: 0 <= k < |terms| ==> terms[k] == ""
    ensures KeywordScore(titleLower, abstractLower, terms) == 4.0 * |terms| as real
    decreases |terms|
  {
    if terms != [] {
      EmptyTermsScoreFully(titleLower, abstractLower, terms[..|terms| - 1]);
      assert StartsWith(titleLower, "") && StartsWith(abstractLower, "");
    }
  }

  /** A blank query gives every paper the same keyword points, so the
      ranking is decided by citations and recency alone. */
  lemma BlankQueryScoresAlike(query: string, titleLower: string, abstractLower: string)
    requires IsBlank(query)
    ensures KeywordScore(titleLower, abstractLower, QueryTerms(query)) == 4.0 * |QueryTerms(query)| as real
  {
    assert IsBlank(Lower(query));
    BlankFieldsAreEmpty(Lower(query));
    EmptyTermsScoreFully(titleLower, abstractLower, QueryTerms(query));
  }

  /** One point for a paper from 2020 on, half a point more from 2022 on. */
  function RecencyBonus(year: Option<int>): (b: real)
    ensures b == 0.0 || b == 1.0 || b == 1.5
    ensures b > 0.0 <==> year.Some? && year.value >= 2020
    ensures b == 1.5 <==> year.Some? && year.value >= 2022
  {
    (if TruthyInt(year) && year.value >= 2020 then 1.0 else 0.0)
    + (if TruthyInt(year) && year.value >= 2022 then 0.5 else 0.0)
  }

  /** The relevance score of a paper: keyword points, half the logarithm
      `logOnePlus(c)` of one more than its citation count, and the recency
      bonus. */
  function RelevanceScore(p: ResearchPaper, terms: seq<string>, logOnePlus: nat -> real): real {
    KeywordScore(Lower(p.title), Lower(OrString(p.abstractText, "")), terms)
    + logOnePlus(p.citationCount) * 0.5
    + RecencyBonus(p.year)
  }

  /** The score lies between the citation part alone and the citation part
      plus full keyword points and the full bonus. */
  lemma RelevanceScoreBounds(p: ResearchPaper, terms: seq<string>, logOnePlus: nat -> real)
    ensures logOnePlus(p.citationCount) * 0.5 <= RelevanceScore(p, terms, logOnePlus)
    ensures RelevanceScore(p, terms, logOnePlus) <= 4.0 * |terms| as real + logOnePlus(p.citationCount) * 0.5 + 1.5
  {
    KeywordScoreBounds(Lower(p.title), Lower(OrString(p.abstractText, "")), terms);
  }

  /** With a logarithm that grows with its argument, more citations never
      lower the score of an otherwise identical paper. */
  lemma MoreCitationsScoreHigher(p: ResearchPaper, more: nat, terms: seq<string>, logOnePlus: nat -> real)
    requires forall a: nat, b: nat :: a <= b ==> logOnePlus(a) <= logOnePlus(b)
    requires p.citationCount <= more
    ensures RelevanceScore(p, terms, logOnePlus) <= RelevanceScore(p.(citationCount := more), terms, logOnePlus)
  {
    assert logOnePlus(p.citationCount) <= logOnePlus(more);
  }

  /** A later year never lowers the score of an otherwise identical paper. */
  lemma LaterYearsScoreHigher(p: ResearchPaper, later: int, terms: seq<string>, logOnePlus: nat -> real)
    requires p.year.Some? && p.year.value <= later
    ensures RelevanceScore(p, terms, logOnePlus) <= RelevanceScore(p.(year := Some(later)), terms, logOnePlus)
  {
  }

  /** The scoring callback of `rankPapersByRelevance`. */
  method ScorePaper(p: ResearchPaper, terms: seq<string>, logOnePlus: nat -> real) returns (score: real)
    ensures score == RelevanceScore(p, terms, logOnePlus)
  {
    score := 0.0;
    var titleLower := Lower(p.title);
    var abstractLower := Lower(OrString(p.abstractText, ""));
    var i := 0;
    while i < |terms|
      invariant 0 <= i <= |terms|
      invariant score == KeywordScore(titleLower, abstractLower, terms[..i])
    {
      var term := terms[i];
      assert terms[..i + 1][..i] == terms[..i];
      if Contains(titleLower, term) {
        score := score + 3.0;
      }
      if Contains(abstractLower, term) {
        score := score + 1.0;
      }
      i := i + 1;
    }
    assert terms[..|terms|] == terms;
    score := score + logOnePlus(p.citationCount) * 0.5;
    if TruthyInt(p.year) && p.year.value >= 2020 {
      score := score + 1.0;
    }
    if TruthyInt(p.year) && p.year.value >= 2022 {
      score := score + 0.5;
    }
  }

  /** `{ ...paper, relevanceScore }`. */
  function WithScore(p: ResearchPaper, terms: seq<string>, logOnePlus: nat -> real): ResearchPaper {
    p.(relevanceScore := Some(RelevanceScore(p, terms, logOnePlus)))
  }

  function ScoredPapers(papers: seq<ResearchPaper>, terms: seq<string>, logOnePlus: nat -> real): (r: seq<ResearchPaper>)
    ensures |r| == |papers|
    ensures forall i :: 0 <= i < |papers| ==> r[i] == WithScore(papers[i], terms, logOnePlus)
  {
    seq(|papers|, i requires 0 <= i < |papers| => WithScore(papers[i], terms, logOnePlus))
  }

  function Scores(papers: seq<ResearchPaper>, terms: seq<string>, logOnePlus: nat -> real): (r: seq<real>)
    ensures |r| == |papers|
    ensures forall i :: 0 <= i < |papers| ==> r[i] == RelevanceScore(papers[i], terms, logOnePlus)
  {
    seq(|papers|, i requires 0 <= i < |papers| => RelevanceScore(papers[i], terms, logOnePlus))
  }

  /** The result of `rankPapersByRelevance`: every paper once, with its
      score attached, in the order `Order` of the scores. */
  function RankedByRelevance(papers: seq<ResearchPaper>, query: string, logOnePlus: nat -> real)
    : (r: seq<ResearchPaper>)
    ensures |r| == |papers|
    ensures multiset(r) == multiset(ScoredPapers(papers, QueryTerms(query), logOnePlus))
    ensures var keys := Scores(papers, QueryTerms(query), logOnePlus);
            forall k :: 0 <= k < |r| ==> r[k] == WithScore(papers[Order(keys)[k]], QueryTerms(query), logOnePlus)
  {
    var terms := QueryTerms(query);
    SortByKeyDescending(ScoredPapers(papers, terms, logOnePlus), Scores(papers, terms, logOnePlus))
  }

  /** The ranking is by descending score, and papers of equal score keep
      their input order. */
  lemma RankedIsSorted(papers: seq<ResearchPaper>, query: string, logOnePlus: nat -> real)
    ensures var r := RankedByRelevance(papers, query, logOnePlus);
            forall k :: 0 <= k < |r| ==> r[k].relevanceScore.Some?
    ensures var r := RankedByRelevance(papers, query, logOnePlus);
            forall a, b :: 0 <= a < b < |r| ==> r[a].relevanceScore.value >= r[b].relevanceScore.value
    ensures var r := RankedByRelevance(papers, query, logOnePlus);
            var keys := Scores(papers, QueryTerms(query), logOnePlus);
            forall a, b :: 0 <= a < b < |r| && r[a].relevanceScore == r[b].relevanceScore
              ==> Order(keys)[a] < Order(keys)[b]
  {
    var terms := QueryTerms(query);
    var keys := Scores(papers, terms, logOnePlus);
    var r := RankedByRelevance(papers, query, logOnePlus);
    var sorted := SortByKeyDescending(ScoredPapers(papers, terms, logOnePlus), keys);
    assert r == sorted;
    assert forall k :: 0 <= k < |r| ==> r[k].relevanceScore == Some(keys[Order(keys)[k]]);
  }

  /** No paper scores higher than the one ranked first. */
  lemma FirstRankedScoresHighest(papers: seq<ResearchPaper>, query: string, logOnePlus: nat -> real)
    requires papers != []
    ensures var r := RankedByRelevance(papers, query, logOnePlus);
            forall j :: 0 <= j < |papers| ==>
              RelevanceScore(papers[j], QueryTerms(query), logOnePlus) <= r[0].relevanceScore.value
  {
    var terms := QueryTerms(query);
    var keys := Scores(papers, terms, logOnePlus);
    var order := Order(keys);
    var r := RankedByRelevance(papers, query, logOnePlus);
    forall j | 0 <= j < |papers|
      ensures RelevanceScore(papers[j], terms, logOnePlus) <= r[0].relevanceScore.value
    {
      assert j in order;
      var k :| 0 <= k < |order| && order[k] == j;
      assert r[k] == WithScore(papers[j], terms, logOnePlus);
      if k > 0 {
        RankedIsSorted(papers, query, logOnePlus);
      }
    }
  }

  /** `rankPapersByRelevance`: scores each paper, then sorts by score. */
  method RankPapersByRelevance(papers: seq<ResearchPaper>, query: string, logOnePlus: nat -> real)
    returns (ranked: seq<ResearchPaper>)
    ensures ranked == RankedByRelevance(papers, query, logOnePlus)
  {
    var terms := QueryTerms(query);
    var scored: seq<ResearchPaper> := [];
    var keys: seq<real> := [];
    var i := 0;
    while i < |papers|
      invariant 0 <= i <= |papers|
      invariant scored == ScoredPapers(papers[..i], terms, logOnePlus)
      invariant keys == Scores(papers[..i], terms, logOnePlus)
    {
      var score := ScorePaper(papers[i], terms, logOnePlus);
      scored := scored + [papers[i].(relevanceScore := Some(score))];
      keys := keys + [score];
      i := i + 1;
    }
    assert papers[..|papers|] == papers;
    ranked := SortByKeyDescending(scored, keys);
  }

  // ---------------------------------------------------------------------
  // Context for the language model

  /** The first 300 characters of the abstract, "..." when it was longer,
      or a fixed note when there is none. */
  function AbstractSnippet(abstractText: Option<string>): (r: string)
    ensures TruthyString(abstractText) ==> |r| <= 303 && StartsWith(r, Take(abstractText.value, 300))
    ensures TruthyString(abstractText) && |abstractText.value| <= 300 ==> r == abstractText.value
    ensures TruthyString(abstractText) && |abstractText.value| > 300 ==> r == abstractText.value[..300] + "..."
    ensures !TruthyString(abstractText) ==> r == NoAbstract
  {
    if TruthyString(abstractText) then Ellipsize(abstractText.value, 300) else NoAbstract
  }

  const NoAbstract: string := "No abstract available."

  /** `paper.year || "n.d."`. */
  function YearText(year: Option<int>): string {
    if TruthyInt(year) then IntToString(year.value) else "n.d."
  }

  /** The paper marker "[n]" the model is asked to cite by. */
  function Marker(n: nat): string {
    "[" + NatToString(n) + "]"
  }

  /** The start of a block: the marker and the title. */
  function ContextOpening(p: ResearchPaper, index: nat): string {
    Marker(index + 1) + " " + p.title + " ("
  }

  /** The first line of a block: "[n] title (authors, year)". */
  function ContextHeading(p: ResearchPaper, index: nat): string {
    ContextOpening(p, index) + (FormatAuthors(p.authors, 2) + ", " + YearText(p.year) + ")")
  }

  /** The two middle lines of a block: the citation count and the abstract. */
  function ContextDetails(p: ResearchPaper): string {
    "Citation count: " + NatToString(p.citationCount) + ("\nAbstract: " + AbstractSnippet(p.abstractText))
  }

  /** The last line of a block. */
  function UrlLine(p: ResearchPaper): string {
    "URL: " + OrString(p.url, "N/A")
  }

  /** The block describing the paper at position `index`, numbered from 1:
      the heading line with at most two authors and the year, the citation
      count and the abstract snippet, and the URL last. */
  function ContextBlock(p: ResearchPaper, index: nat): (r: string)
    ensures StartsWith(r, ContextOpening(p, index))
    ensures StartsWith(r, ContextHeading(p, index) + "\n")
    ensures Contains(r, "\n" + ContextDetails(p) + "\n")
    ensures EndsWith(r, "\n" + UrlLine(p))
  {
    var heading := ContextHeading(p, index);
    var r := heading + "\n" + ContextDetails(p) + "\n" + UrlLine(p);
    Framed(heading, "\n", ContextDetails(p), "\n", UrlLine(p));
    StartsWithConcat(ContextOpening(p, index), FormatAuthors(p.authors, 2) + ", " + YearText(p.year) + ")");
    StartsWithTrans(r, heading + "\n", heading);
    StartsWithTrans(r, heading, ContextOpening(p, index));
    r
  }

  /** A string built from five parts starts with the first two, contains the
      middle three and ends with the last two. */
  lemma Framed(a: string, b: string, c: string, d: string, e: string)
    ensures StartsWith(a + b + c + d + e, a + b)
    ensures Contains(a + b + c + d + e, b + c + d)
    ensures EndsWith(a + b + c + d + e, d + e)
  {
    var r := a + b + c + d + e;
    assert r == (a + b) + (c + d + e);
    StartsWithConcat(a + b, c + d + e);
    assert r == (a + b + c) + (d + e);
    EndsWithConcat(a + b + c, d + e);
    assert r[|a|..|a| + |b + c + d|] == b + c + d;
    ContainsAt(r, b + c + d, |a|);
  }

  /** A paper without a year is dated "n.d.", one without an abstract says
      so, and one without a URL shows "N/A". */
  lemma ContextBlockDefaults(p: ResearchPaper, index: nat)
    ensures !TruthyInt(p.year) ==> EndsWith(ContextHeading(p, index), ", n.d.)")
    ensures TruthyInt(p.year) ==> EndsWith(ContextHeading(p, index), ", " + IntToString(p.year.value) + ")")
    ensures !TruthyString(p.abstractText) ==> EndsWith(ContextDetails(p), "\nAbstract: " + NoAbstract)
    ensures !TruthyString(p.url) ==> UrlLine(p) == "URL: N/A"
    ensures TruthyString(p.url) ==> UrlLine(p) == "URL: " + p.url.value
  {
    HeadingEndsWithYear(p, index);
    DetailsEndWithAbstract(p);
  }

  lemma HeadingEndsWithYear(p: ResearchPaper, index: nat)
    ensures EndsWith(ContextHeading(p, index), ", " + YearText(p.year) + ")")
  {
    var tail := FormatAuthors(p.authors, 2) + ", " + YearText(p.year) + ")";
    assert tail == FormatAuthors(p.authors, 2) + (", " + YearText(p.year) + ")");
    EndsWithConcat(FormatAuthors(p.authors, 2), ", " + YearText(p.year) + ")");
    EndsWithOfConcat(ContextOpening(p, index), tail, ", " + YearText(p.year) + ")");
  }

  lemma DetailsEndWithAbstract(p: ResearchPaper)
    ensures EndsWith(ContextDetails(p), "\nAbstract: " + AbstractSnippet(p.abstractText))
  {
    EndsWithConcat("Citation count: " + NatToString(p.citationCount), "\nAbstract: " + AbstractSnippet(p.abstractText));
  }

  function ContextBlocks(papers: seq<ResearchPaper>): (r: seq<string>)
    ensures |r| == |papers|
    ensures forall i :: 0 <= i < |papers| ==> r[i] == ContextBlock(papers[i], i)
  {
    seq(|papers|, i requires 0 <= i < |papers| => ContextBlock(papers[i], i))
  }

  /** `extractPaperContext`: the blocks separated by blank lines. */
  function ExtractPaperContext(papers: seq<ResearchPaper>): string {
    Join(ContextBlocks(papers), "\n\n")
  }

  /** One more paper adds a blank line and its block, numbered after the
      others; no paper gives no text. */
  lemma ExtractPaperContextAppend(papers: seq<ResearchPaper>, p: ResearchPaper)
    ensures ExtractPaperContext([]) == ""
    ensures papers != [] ==>
      ExtractPaperContext(papers + [p]) == ExtractPaperContext(papers) + "\n\n" + ContextBlock(p, |papers|)
  {
    if papers != [] {
      ContextBlocksAppend(papers, p);
      JoinAppend(ContextBlocks(papers), ContextBlock(p, |papers|), "\n\n");
    }
  }

  lemma ContextBlocksAppend(papers: seq<ResearchPaper>, p: ResearchPaper)
    ensures ContextBlocks(papers + [p]) == ContextBlocks(papers) + [ContextBlock(p, |papers|)]
  {
    var all := papers + [p];
    var l, r := ContextBlocks(all), ContextBlocks(papers) + [ContextBlock(p, |papers|)];
    forall i | 0 <= i < |l| ensures l[i] == r[i] {
      if i < |papers| {
        assert all[i] == papers[i];
      } else {
        assert all[i] == p;
      }
    }
  }

  /** The context opens with the marker "[1]" and the first title. */
  lemma ExtractPaperContextStartsWithFirst(papers: seq<ResearchPaper>)
    requires papers != []
    ensures StartsWith(ExtractPaperContext(papers), ContextOpening(papers[0], 0))
  {
    var blocks := ContextBlocks(papers);
    JoinStartsWithFirst(blocks, "\n\n");
    StartsWithTrans(ExtractPaperContext(papers), blocks[0], ContextOpening(papers[0], 0));
  }
}
