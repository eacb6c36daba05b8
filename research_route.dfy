/** app/api/research/route.ts: the research endpoint. It checks the caller
    and the query, searches for twice as many papers as were asked for (at
    most 20, each cited at least once), ranks them, keeps the best ones and
    has a language model answer the question from them.

    The session, the decoded request body, the paper search, the language
    model and `Math.log` are parameters: `None` for the body means it could
    not be read, a `Failure` of the search and `None` from the model mean
    that the call threw. The model is a function of the system prompt and
    the user prompt it is sent. */
module ResearchRoute {
  import opened Optional
  import opened Text
  import opened ResearchTypes
  import opened StableSort
  import ResearchPapers

  /** The JSON body; an absent field is `None`. */
  datatype ResearchRequest = ResearchRequest(query: Option<string>, numPapers: Option<int>)

  /** What the endpoint answers: a bare text, a JSON error, or the answer. */
  datatype RouteReply =
    | PlainText(status: int, text: string)
    | JsonError(status: int, error: string)
    | Answer(papers: seq<ResearchPaper>, totalResults: int, query: string, generatedAnswer: string)

  const DefaultNumPapers: int := 5
  const MaxSearchLimit: int := 20

  const ServerError: string := "Failed to search research papers"
  const QueryRequired: string := "Query is required"

  const NoPapersAnswer: string :=
    "I couldn't find any relevant research papers for your query. Please try rephrasing your question or using different keywords."

  /** `Math.min(numPapers * 2, 20)`. */
  function SearchLimit(numPapers: int): (limit: int)
    ensures limit <= MaxSearchLimit
    ensures limit <= 2 * numPapers
    ensures limit == MaxSearchLimit || limit == 2 * numPapers
  {
    if 2 * numPapers < MaxSearchLimit then 2 * numPapers else MaxSearchLimit
  }

  /** The search the endpoint asks for: the query, the limit, papers with at
      least one citation, nothing else. */
  function RouteSearchParams(query: string, numPapers: int): PaperSearchParams {
    PaperSearchParams(query, Some(SearchLimit(numPapers)), None, None, None, None, Some(1))
  }

  /** The search request carries the query, the limit and the citation
      filter once each, the default offset, and no other filter. */
  lemma RouteSearchRequest(query: string, numPapers: int)
    ensures var params := ResearchPapers.SearchParamsOf(RouteSearchParams(query, numPapers));
            && ResearchPapers.ValuesFor(params, "query") == [query]
            && ResearchPapers.ValuesFor(params, "limit") == [IntToString(SearchLimit(numPapers))]
            && ResearchPapers.ValuesFor(params, "offset") == ["0"]
            && ResearchPapers.ValuesFor(params, "minCitationCount") == ["1"]
            && ResearchPapers.ValuesFor(params, "year") == []
            && ResearchPapers.ValuesFor(params, "venue") == []
            && ResearchPapers.ValuesFor(params, "fieldsOfStudy") == []
  {
    ResearchPapers.SearchParamsMandatory(RouteSearchParams(query, numPapers));
    ResearchPapers.SearchParamsFilters(RouteSearchParams(query, numPapers));
  }

  /** Where `slice(0, end)` stops: a negative end counts from the back. */
  function SliceEnd(length: nat, end: int): (e: nat)
    ensures e <= length
    ensures end >= 0 ==> e == if end <= length then end else length
    ensures end < 0 ==> e == if length + end >= 0 then length + end else 0
  {
    if end >= 0 then (if end <= length then end else length)
    else if length + end >= 0 then length + end else 0
  }

  const PromptIntro: string :=
    "You are a research assistant. Based on the provided research papers, give a comprehensive answer to the user's question. \n\n"
    + "Guidelines:\n"
    + "1. Synthesize information from multiple papers when possible\n"
    + "2. Cite papers using [1], [2], etc. format corresponding to the paper numbers provided\n"
    + "3. Highlight key findings, methodologies, and conclusions\n"
    + "4. Mention limitations or conflicting findings if they exist\n"
    + "5. Keep the response informative but accessible\n"
    + "6. Always reference specific papers when making claims\n\n"
    + "Research Papers Context:\n"

  /** The system prompt: the fixed instructions, the numbered paper
      context, then the question. */
  function SystemPrompt(paperContext: string, query: string): string {
    PromptIntro + paperContext + QuestionLine(query)
  }

  function QuestionLine(query: string): string {
    "\n\nUser Question: " + query
  }

  /** The prompt holds the instructions and the paper context first and
      ends with the question. */
  lemma SystemPromptShape(paperContext: string, query: string)
    ensures StartsWith(SystemPrompt(paperContext, query), PromptIntro + paperContext)
    ensures EndsWith(SystemPrompt(paperContext, query), QuestionLine(query))
  {
    StartsWithConcat(PromptIntro + paperContext, QuestionLine(query));
    EndsWithConcat(PromptIntro + paperContext, QuestionLine(query));
  }

  const AnswerLead: string := "Please provide a comprehensive answer to: "
  const AnswerTail: string :=
    " based on the research papers provided. Make sure to cite relevant papers using the [1], [2], etc. format."

  /** The prompt the model is asked to answer: the question in double quotes
      between a fixed lead and a fixed tail. */
  function UserPrompt(query: string): string {
    AnswerLead + ("\"" + query + "\"") + AnswerTail
  }

  /** The user prompt asks for an answer to the question, quoted as written. */
  lemma UserPromptQuotes(query: string)
    ensures StartsWith(UserPrompt(query), AnswerLead)
    ensures Contains(UserPrompt(query), "\"" + query + "\"")
  {
    var quoted := "\"" + query + "\"";
    var r := UserPrompt(query);
    assert r == AnswerLead + (quoted + AnswerTail);
    StartsWithConcat(AnswerLead, quoted + AnswerTail);
    assert r[|AnswerLead|..|AnswerLead| + |quoted|] == quoted;
    ContainsAt(r, quoted, |AnswerLead|);
  }

  /** The papers the endpoint keeps: the first `numPapers` of the ranking. */
  function Selected(results: seq<ResearchPaper>, query: string, numPapers: int, logOnePlus: nat -> real)
    : seq<ResearchPaper>
  {
    var ranked := ResearchPapers.RankedByRelevance(results, query, logOnePlus);
    ranked[..SliceEnd(|ranked|, numPapers)]
  }

  /** The number of papers asked for, 5 when absent. */
  function NumPapers(request: ResearchRequest): int {
    if request.numPapers.Some? then request.numPapers.value else DefaultNumPapers
  }

  /** The request names a query with something besides white space. */
  predicate HasQuery(request: ResearchRequest) {
    request.query.Some? && !IsBlank(request.query.value)
  }

  /** What the model answers when sent the system prompt built from the
      kept papers' context and the user prompt for the query. */
  function ModelReply(generate: (string, string) -> Option<string>, selected: seq<ResearchPaper>, query: string)
    : Option<string>
  {
    generate(SystemPrompt(ResearchPapers.ExtractPaperContext(selected), query), UserPrompt(query))
  }

  /** The answer with the model's text, or the 500 error when the model
      threw. */
  function Answered(selected: seq<ResearchPaper>, total: int, query: string, reply: Option<string>): (r: RouteReply)
    ensures reply.None? ==> r == JsonError(500, ServerError)
    ensures reply.Some? ==> r == Answer(selected, total, query, reply.value)
  {
    if reply.Some? then Answer(selected, total, query, reply.value) else JsonError(500, ServerError)
  }

  /** What follows the search, given how the search ended: a failure is a
      500 error; no papers give the fixed answer without asking the model;
      otherwise the model answers from the context of the kept papers. */
  function AfterSearch(query: string, n: int, outcome: ResearchPapers.Outcome<ResearchPapers.SearchResult>,
                       generate: (string, string) -> Option<string>, logOnePlus: nat -> real): (r: RouteReply)
    ensures outcome.Failure? ==> r == JsonError(500, ServerError)
    ensures outcome.Success? && outcome.value.papers == [] ==> r == Answer([], 0, query, NoPapersAnswer)
    ensures outcome.Success? && outcome.value.papers != [] ==>
              r == Answered(Selected(outcome.value.papers, query, n, logOnePlus), outcome.value.total, query,
                            ModelReply(generate, Selected(outcome.value.papers, query, n, logOnePlus), query))
  {
    match outcome
    case Failure(_) => JsonError(500, ServerError)
    case Success(found) =>
      if found.papers == [] then Answer([], 0, query, NoPapersAnswer)
      else
        var selected := Selected(found.papers, query, n, logOnePlus);
        Answered(selected, found.total, query, ModelReply(generate, selected, query))
  }

  /** `POST /api/research`. Without a session nothing else happens; a body
      that cannot be read and every call that throws give the same 500
      error. */
  function ResearchPost(signedIn: bool, body: Option<ResearchRequest>,
                        search: PaperSearchParams -> ResearchPapers.Outcome<ResearchPapers.SearchResult>,
                        generate: (string, string) -> Option<string>,
                        logOnePlus: nat -> real): (r: RouteReply)
    ensures !signedIn ==> r == PlainText(401, "Unauthorized")
    ensures signedIn && body.None? ==> r == JsonError(500, ServerError)
    ensures signedIn && body.Some? && !HasQuery(body.value) ==> r == JsonError(400, QueryRequired)
    ensures signedIn && body.Some? && HasQuery(body.value) ==>
              var query := body.value.query.value;
              var n := NumPapers(body.value);
              r == AfterSearch(query, n, search(RouteSearchParams(query, n)), generate, logOnePlus)
  {
    if !signedIn then PlainText(401, "Unauthorized")
    else if body.None? then JsonError(500, ServerError)
    else
      var request := body.value;
      if request.query.None? || Trim(request.query.value) == "" then
        TrimEmptyIffBlank(if request.query.Some? then request.query.value else "");
        JsonError(400, QueryRequired)
      else
        var query := request.query.value;
        TrimEmptyIffBlank(query);
        var n := NumPapers(request);
        AfterSearch(query, n, search(RouteSearchParams(query, n)), generate, logOnePlus)
  }

  /** An empty search never depends on the model: any two models give the
      same reply. */
  lemma NoPapersNeedNoModel(body: ResearchRequest,
                            search: PaperSearchParams -> ResearchPapers.Outcome<ResearchPapers.SearchResult>,
                            generate1: (string, string) -> Option<string>,
                            generate2: (string, string) -> Option<string>,
                            logOnePlus: nat -> real)
    requires HasQuery(body)
    requires search(RouteSearchParams(body.query.value, NumPapers(body))).Success?
    requires search(RouteSearchParams(body.query.value, NumPapers(body))).value.papers == []
    ensures ResearchPost(true, Some(body), search, generate1, logOnePlus)
              == ResearchPost(true, Some(body), search, generate2, logOnePlus)
              == Answer([], 0, body.query.value, NoPapersAnswer)
  {
  }

  /** After the search, an answer repeats the query and holds at most as
      many papers as were asked for. */
  lemma AfterSearchBounded(query: string, n: int, outcome: ResearchPapers.Outcome<ResearchPapers.SearchResult>,
                           generate: (string, string) -> Option<string>, logOnePlus: nat -> real)
    ensures var r := AfterSearch(query, n, outcome, generate, logOnePlus);
            r.Answer? ==> r.query == query && (n >= 0 ==> |r.papers| <= n)
  {
    var r := AfterSearch(query, n, outcome, generate, logOnePlus);
    if outcome.Success? && outcome.value.papers != [] {
      var selected := Selected(outcome.value.papers, query, n, logOnePlus);
      var reply := ModelReply(generate, selected, query);
      assert r == Answered(selected, outcome.value.total, query, reply);
      if n >= 0 {
        SelectedAtMost(outcome.value.papers, query, n, logOnePlus);
        assert |selected| <= n;
      }
      assert r.Answer? ==> r.papers == selected;
    }
  }

  /** An answer comes only for a signed-in caller with a query; it repeats
      that query and holds at most as many papers as were asked for. */
  lemma AnswerIsBounded(signedIn: bool, body: Option<ResearchRequest>,
                        search: PaperSearchParams -> ResearchPapers.Outcome<ResearchPapers.SearchResult>,
                        generate: (string, string) -> Option<string>,
                        logOnePlus: nat -> real)
    ensures var r := ResearchPost(signedIn, body, search, generate, logOnePlus);
            r.Answer? ==>
              && signedIn && body.Some? && HasQuery(body.value)
              && r.query == body.value.query.value
              && (NumPapers(body.value) >= 0 ==> |r.papers| <= NumPapers(body.value))
  {
    if signedIn && body.Some? && HasQuery(body.value) {
      var query := body.value.query.value;
      var n := NumPapers(body.value);
      AfterSearchBounded(query, n, search(RouteSearchParams(query, n)), generate, logOnePlus);
    }
  }

  lemma SelectedAtMost(results: seq<ResearchPaper>, query: string, numPapers: int, logOnePlus: nat -> real)
    requires numPapers >= 0
    ensures |Selected(results, query, numPapers, logOnePlus)| <= numPapers
  {
  }

  /** Exactly the first `numPapers` of the ranking are kept (all of them
      when there are fewer). */
  lemma SelectedCount(results: seq<ResearchPaper>, query: string, numPapers: int, logOnePlus: nat -> real)
    requires numPapers >= 0
    ensures |Selected(results, query, numPapers, logOnePlus)| == if numPapers <= |results| then numPapers else |results|
  {
  }

  /** Every kept paper is one of the search results, with its score
      attached. */
  lemma SelectedComeFromResults(results: seq<ResearchPaper>, query: string, numPapers: int, logOnePlus: nat -> real)
    ensures var sel := Selected(results, query, numPapers, logOnePlus);
            forall k :: 0 <= k < |sel| ==>
              exists j :: 0 <= j < |results| && sel[k] == ResearchPapers.WithScore(results[j], ResearchPapers.QueryTerms(query), logOnePlus)
  {
    var terms := ResearchPapers.QueryTerms(query);
    var keys := ResearchPapers.Scores(results, terms, logOnePlus);
    var ranked := ResearchPapers.RankedByRelevance(results, query, logOnePlus);
    var sel := Selected(results, query, numPapers, logOnePlus);
    forall k | 0 <= k < |sel|
      ensures exists j :: 0 <= j < |results| && sel[k] == ResearchPapers.WithScore(results[j], terms, logOnePlus)
    {
      assert sel[k] == ranked[k];
      var j := Order(keys)[k];
      assert 0 <= j < |results| && sel[k] == ResearchPapers.WithScore(results[j], terms, logOnePlus);
    }
  }

  /** No paper left out of the selection scores higher than a kept one. */
  lemma SelectedAreBest(results: seq<ResearchPaper>, query: string, numPapers: int, logOnePlus: nat -> real)
    ensures var ranked := ResearchPapers.RankedByRelevance(results, query, logOnePlus);
            var sel := Selected(results, query, numPapers, logOnePlus);
            && (forall k :: 0 <= k < |sel| ==> sel[k] == ranked[k])
            && (forall a, b :: 0 <= a < |sel| <= b < |ranked| ==>
                  sel[a].relevanceScore.value >= ranked[b].relevanceScore.value)
  {
    ResearchPapers.RankedIsSorted(results, query, logOnePlus);
  }
}
