# re-agent research core in Dafny

re-agent is a research assistant web application. A signed-in user asks a
question; the research endpoint searches Semantic Scholar for papers, ranks
them by a keyword/citation/recency score, keeps the best ones, writes them
into a numbered context for a language model and returns the model's answer
together with the papers. The chat UI rewrites the answer's `[n]` markers
into links to the papers and shows a citation list and a summary. Saved
conversations are indexed in a vector store, one record per message, and
searched by grouping matches per conversation; the sidebar filters and
groups conversations by date.

This project models the deterministic logic under that glue:

- `text.dfy` (`Text`): the string operations the code uses (whitespace,
  `toLowerCase`, `includes`, `startsWith`, `join`, `split(/\s+/)`, `trim`,
  `slice`/`substring` with "...", decimal rendering and `parseInt`).
- `optional.dfy` (`Optional`): `null`/`undefined` as `Option`, JavaScript
  truthiness of strings and numbers, `a || b` on strings.
- `research_types.dfy` (`ResearchTypes`): the paper record and the search
  parameters.
- `stable_sort.dfy` (`StableSort`): `Array.prototype.sort` with the
  comparator `(a, b) => b.key - a.key`, which is stable: an index order by
  insertion, proved descending, stable on ties and a permutation.
- `rate_limiter.dfy` (`RateLimiting`): the `RateLimiter` class with its
  one mutable field, against an explicit `Clock` object.
- `research_papers.dfy` (`ResearchPapers`): normalisation of API records,
  the query parameters, the search and details requests against a given
  HTTP function, the batch loop, author formatting, APA citations, the
  relevance score and ranking, and the model context.
- `conversations.dfy` (`Conversations`): title derivation, the vector
  records built when a conversation is saved, grouping of vector matches
  per conversation and the plain-text fallback.
- `response_citations.dfy` (`ResponseCitations`): the `[n]` marker rewrite
  and the `isPaperCitation` link predicate.
- `citations.dfy` (`Citations`): the citation list
  entries and the two folds of the citation summary.
- `sidebar.dfy` (`Sidebar`): title filtering, the choice of the displayed
  list and grouping by date.
- `research_route.dfy` (`ResearchRoute`): `POST /api/research` as a
  function from the session, the request body and the outcomes of the
  search and of the model to the reply.

Everything outside the process is a parameter: the HTTP API is a function
from a URL to a reply, the embedding model a partial function from text to a
vector, the vector index a list of matches, the language model a partial
function of the system prompt and the user prompt, `Date.now`/`setTimeout` a
`Clock` object, date parsing and calendar days two functions, and
`Math.log(c + 1)` a function `logOnePlus` of the citation count.

## Model

| member | source | states |
|---|---|---|
| RateLimiting.RateLimiter.constructor | lib/rate-limiter.ts:2-8 | a new limiter has recorded no request (time 0) and an interval of 1000 / requests-per-second milliseconds |
| RateLimiting.WaitTime | lib/rate-limiter.ts:11-18 | the wait is zero exactly when at least the interval has passed since the last request; otherwise it is what makes now plus the wait land exactly one interval after the last request |
| RateLimiting.RateLimiter.WaitIfNeeded | lib/rate-limiter.ts:10-21 | sleeps for WaitTime, then records the clock reading after the sleep, which is at least one interval after the previous record; the interval is not changed |
| RateLimiting.RateLimiter.Reset | lib/rate-limiter.ts:23-25 | the record is back to its initial value 0 and nothing else changes |
| RateLimiting.ResetWaitsOnlyEarly | lib/rate-limiter.ts:3-25 | after a reset the next call waits if and only if the clock reads less than the interval |
| RateLimiting.CreateRateLimiter | lib/rate-limiter.ts:32-34 | a fresh limiter with no recorded request and the interval of the given rate |
| RateLimiting.NewSemanticScholarRateLimiter | lib/rate-limiter.ts:29 | the Semantic Scholar limiter allows one request per second: an interval of 1000 ms |
| RateLimiting.TwoCallsAtTwoPerSecond | lib/rate-limiter.ts:10-21 | two consecutive calls on a 2-per-second limiter record times at least 500 ms apart, whatever the clock does |
| RateLimiting.FactoryLimitersAreIndependent | lib/rate-limiter.ts:32-34 | using one limiter from the factory leaves another one's record untouched |
| ResearchPapers.SemanticScholarUrl | lib/research-papers.ts:177-179 | the fallback page is the Semantic Scholar paper prefix followed by exactly the paper id |
| ResearchPapers.NormalizePaper | lib/research-papers.ts:74-106 | id, title, abstract, year and venue are copied; a missing citation count is 0; the url is the record's when non-empty, else the Semantic Scholar page; the doi is present exactly when the record has a non-empty one; missing authors become none; fields of study become their categories in order, or absent; there is no score |
| ResearchPapers.NormalizeIdempotent | lib/research-papers.ts:74-106 | normalising an already normalised paper changes nothing |
| ResearchPapers.HttpFailure | lib/research-papers.ts:61-70 | a 429 reply fails with the rate-limit message, any other failed status with the status code and text |
| ResearchPapers.SearchPage | lib/research-papers.ts:74-112 | the papers are the normalised records in reply order (none when the reply has none), total defaults to 0 and next is present only when truthy |
| ResearchPapers.SearchOutcome | lib/research-papers.ts:61-116 | a search succeeds exactly when the reply arrived with an ok status, and then returns its page; a failed status and an unreachable service each fail with their own message |
| ResearchPapers.SearchedPapersHaveUrls | lib/research-papers.ts:95-97 | every paper of a successful search has a non-empty url |
| ResearchPapers.BuildSearchParams | lib/research-papers.ts:24-49 | the parameter list built step by step is the reference list SearchParamsOf |
| ResearchPapers.SearchParamsSplit | lib/research-papers.ts:24-49 | the values of each key in the list are the mandatory values followed by those of each optional filter in the order the filters are appended |
| ResearchPapers.SearchParamsMandatory | lib/research-papers.ts:7-40 | query, limit (default 10), offset (default 0) and the field list appear exactly once each |
| ResearchPapers.SearchParamsFilters | lib/research-papers.ts:42-49 | year, venue and minimum citation count appear once when truthy and not at all otherwise; each field of study appears once, in order |
| ResearchPapers.SearchResearchPapers | lib/research-papers.ts:7-117 | waits on the limiter, then asks the search endpoint with exactly those parameters and returns SearchOutcome of the reply |
| ResearchPapers.PaperDetailsOf | lib/research-papers.ts:137-173 | a paper comes back exactly when the reply arrived with an ok status, and it is the normalised record; a 404, a 429, any other failure and an unreachable service all give nothing |
| ResearchPapers.GetPaperDetails | lib/research-papers.ts:120-174 | waits on the limiter, then fetches the details url of the id and returns PaperDetailsOf of the reply |
| ResearchPapers.AllDetails | lib/research-papers.ts:245-263 | one entry per id, in the same order, each the details of that id or nothing |
| ResearchPapers.BatchGetPaperDetails | lib/research-papers.ts:245-263 | the loop returns AllDetails of the ids, and the limiter's record has advanced by at least one interval per id |
| ResearchPapers.SpreadIsProduct | lib/research-papers.ts:245-263 | the spacing of n limited calls is n times the interval |
| ResearchPapers.FormatAuthors | lib/research-papers.ts:182-196 | no authors give "Unknown Authors"; up to the maximum, all names joined by ", "; past it, the text ends in " et al." |
| ResearchPapers.FormatAuthorsTruncates | lib/research-papers.ts:192-195 | past the maximum, the text is exactly the formatting of the first `max` authors followed by " et al." |
| ResearchPapers.FormatAuthorsNamesFirstAuthor | lib/research-papers.ts:188-195 | with a positive maximum the text starts with the first author's name |
| ResearchPapers.FormatAuthorsZeroLimit | lib/research-papers.ts:192-195 | a maximum of 0 with any author gives only " et al." |
| ResearchPapers.ApaCitation | lib/research-papers.ts:199-211 | starts with "authors (year). title." (n.d. without a year, three authors at most); exactly that head, then " *venue*." when the venue is truthy, then " " and the doi link when the doi is truthy, or else " " and the url when the url is truthy, each case written out |
| ResearchPapers.GenerateApaCitation | lib/research-papers.ts:199-211 | the citation assembled by appending is ApaCitation |
| ResearchPapers.QueryTerms | lib/research-papers.ts:218 | splitting the lower-cased query gives at least one term and no term holds whitespace |
| ResearchPapers.TermScore | lib/research-papers.ts:227-230 | a term scores 0, 1, 3 or 4, and at least 3 exactly when the title contains it |
| ResearchPapers.KeywordScore | lib/research-papers.ts:227-230 | the sum over the query terms, each counted every time it occurs, of 3 when the title contains it and 1 when the abstract does (bounded by KeywordScoreBounds, additive by KeywordScoreAppend) |
| ResearchPapers.KeywordScoreBounds | lib/research-papers.ts:227-230 | the keyword score lies between 0 and 4 per term |
| ResearchPapers.KeywordScoreAppend | lib/research-papers.ts:227-230 | every term counts on its own, repeated terms each time: the score of a concatenation of term lists is the sum |
| ResearchPapers.BlankQueryScoresAlike | lib/research-papers.ts:218-230 | a blank query yields only empty terms, which every title and abstract contain: every paper gets the full 4 per term |
| ResearchPapers.RecencyBonus | lib/research-papers.ts:236-237 | the bonus is 0, 1 or 1.5; positive exactly from 2020 and 1.5 exactly from 2022; no year gives none |
| ResearchPapers.RelevanceScore | lib/research-papers.ts:222-237 | the keyword score of the lower-cased title and abstract (a missing abstract counting as empty), plus half of `logOnePlus` of the citation count, plus the recency bonus (bounded by RelevanceScoreBounds, monotone by MoreCitationsScoreHigher and LaterYearsScoreHigher) |
| ResearchPapers.RelevanceScoreBounds | lib/research-papers.ts:222-237 | a score is at least the citation boost and at most 4 per term plus the boost plus 1.5 |
| ResearchPapers.MoreCitationsScoreHigher | lib/research-papers.ts:233 | with a non-decreasing logarithm, more citations never lower the score |
| ResearchPapers.LaterYearsScoreHigher | lib/research-papers.ts:236-237 | a later year never lowers the score |
| ResearchPapers.ScorePaper | lib/research-papers.ts:221-239 | the score accumulated term by term in the loop is RelevanceScore |
| ResearchPapers.RankedByRelevance | lib/research-papers.ts:214-242 | the ranking is a permutation of the scored papers, each being an input paper unchanged except for its score |
| ResearchPapers.RankedIsSorted | lib/research-papers.ts:241 | every ranked paper has a score, scores never increase along the ranking, and equal scores keep their input order |
| ResearchPapers.FirstRankedScoresHighest | lib/research-papers.ts:214-242 | no input paper scores higher than the first ranked one |
| ResearchPapers.RankPapersByRelevance | lib/research-papers.ts:214-242 | the method's scoring loop followed by the stable sort gives RankedByRelevance |
| ResearchPapers.AbstractSnippet | lib/research-papers.ts:271-274 | the abstract unchanged when it has at most 300 characters, and otherwise exactly its first 300 characters followed by "..."; a missing or empty abstract gives "No abstract available." |
| ResearchPapers.ContextBlock | lib/research-papers.ts:268-279 | the block of the i-th paper starts with the line "[i+1] title (authors, year)" (two authors at most), then the line "Citation count: n" and the abstract line, and ends with the line "URL: url" |
| ResearchPapers.ContextBlockDefaults | lib/research-papers.ts:269-279 | a missing year is written "n.d.", a missing abstract "No abstract available." and a missing url "N/A"; present ones are written as they are |
| ResearchPapers.ContextBlocks | lib/research-papers.ts:267-280 | one block per paper, numbered by position |
| ResearchPapers.ExtractPaperContext | lib/research-papers.ts:266-282 | the model context: the blocks of the papers, numbered from 1, joined by blank lines (its properties are ExtractPaperContextAppend and ExtractPaperContextStartsWithFirst) |
| ResearchPapers.ExtractPaperContextAppend | lib/research-papers.ts:266-282 | no papers give no text; one more paper adds a blank line and its block, numbered after the others |
| ResearchPapers.ExtractPaperContextStartsWithFirst | lib/research-papers.ts:266-282 | the context starts with the first paper's "[1] title (" line |
| StableSort.SortByKeyDescending | lib/research-papers.ts:241 | the sorted list is a permutation taken in Order; keys never increase along it and equal keys keep their input order |
| Conversations.FirstUserIndex | lib/conversations.ts:220 | the position of the first message with role "user", or none when no message has it |
| Conversations.GenerateConversationTitle | lib/conversations.ts:217-229 | without a user message "New Conversation"; otherwise at most 53 characters, starting with the first 50 of the first user message, ending in "..." exactly when it is longer than 50, and that message itself otherwise |
| Conversations.TitleIsPrefixOfFirstUserMessage | lib/conversations.ts:223-226 | with any "..." removed, the title is a prefix of the first user message |
| Conversations.RecordIdInjective | lib/conversations.ts:66 | two different message positions give two different record ids |
| Conversations.RecordsDescribeTheirMessages | lib/conversations.ts:57-82 | every record is the record of a message whose embedding succeeded (id, the embedded text "role: content", and metadata with conversation, user, role, content, time and model), and records appear in increasing message position |
| Conversations.RecordsCoverEmbeddedMessages | lib/conversations.ts:57-82 | every message whose embedding succeeds has a record; failures are skipped without renumbering |
| Conversations.RecordIdsDistinct | lib/conversations.ts:57-82 | no two records share an id |
| Conversations.RecordsUpTo | lib/conversations.ts:57-82 | the records of the first n messages, skipping those whose embedding fails (characterised by RecordsDescribeTheirMessages, RecordsCoverEmbeddedMessages and RecordIdsDistinct) |
| Conversations.BuildVectorRecords | lib/conversations.ts:55-82 | the loop's list is RecordsUpTo of all messages |
| Conversations.IndexConversation | lib/conversations.ts:54-97 | no records without an index; otherwise the records of the messages, and an upsert happens exactly when the index is available and there is a record |
| Conversations.Groups | lib/conversations.ts:178-204 | one group per conversation id, in order of first appearance |
| Conversations.ConversationIdsExact | lib/conversations.ts:180-191 | each id appears once, every kept match's conversation has a group, and every group has a match |
| Conversations.UnseenConversation | lib/conversations.ts:182 | a conversation no kept match names has no matches and score 0 |
| Conversations.MatchesFor | lib/conversations.ts:193-200 | the matches that carry metadata naming this conversation, in the order the index returns them, each with its score (0 when missing), role, content, position and time |
| Conversations.MaxScoreFor | lib/conversations.ts:189-202 | the running `Math.max` from 0 of one conversation's match scores (characterised by MaxScoreIsBest) |
| Conversations.MaxScoreIsBest | lib/conversations.ts:189-202 | a group's score is at least 0 and at least every one of its matches' scores (a missing score counting 0), and it is 0 or the score of one of its matches |
| Conversations.SearchHits | lib/conversations.ts:207-209 | the answer is a permutation of the groups, in the stable order of their scores |
| Conversations.SearchHitsSorted | lib/conversations.ts:207-209 | scores never increase along the answer, and equal scores keep first-appearance order |
| Conversations.SearchHitsWellFormed | lib/conversations.ts:178-209 | every answered group carries its best score |
| Conversations.AbsorbIndexes | lib/conversations.ts:180-204 | taking one more match keeps the map and its insertion order in step with the groups of the matches seen so far |
| Conversations.GroupMatches | lib/conversations.ts:177-209 | the loop over the matches with a map in insertion order, followed by the sort, gives SearchHits |
| Conversations.FallbackHit | lib/conversations.ts:149-161 | one match of score 0.8, role "system", the title as content, position 0 and the update time, and a group score of 0.8 |
| Conversations.FallbackHits | lib/conversations.ts:149-161 | one hit per stored conversation, in query order |
| Conversations.SearchConversations | lib/conversations.ts:118-209 | without an index the text-search fallback, with one the grouped and sorted matches (none for a missing list); every hit carries its best score |
| ResponseCitations.DigitRun | components/ai-elements/response-with-citations.tsx:27 | the length of the maximal run of digits the text starts with |
| ResponseCitations.MarkerLength | components/ai-elements/response-with-citations.tsx:27 | a positive length means the text starts with "[", that many digits and "]" |
| ResponseCitations.SpellTokenize | components/ai-elements/response-with-citations.tsx:27 | reading the text as markers and plain characters loses nothing: spelling the tokens gives the text back |
| ResponseCitations.Tokenize | components/ai-elements/response-with-citations.tsx:27 | the text read left to right into maximal `[digits]` markers and single plain characters, as the global regular expression scans it (lossless by SpellTokenize) |
| ResponseCitations.LinkUrl | components/ai-elements/response-with-citations.tsx:32-34 | the link target is never empty: the paper's url when it has one, its Semantic Scholar page otherwise |
| ResponseCitations.LinkTitle | components/ai-elements/response-with-citations.tsx:35-38 | the title itself when it has at most 50 characters, and otherwise exactly its first 50 characters followed by "..." (53 characters in all) |
| ResponseCitations.RenderMarker | components/ai-elements/response-with-citations.tsx:28-43 | a marker numbering a paper (from 1) becomes a link to that paper keeping the digits as written; "[0]" and numbers past the list stay as they are |
| ResponseCitations.Rewrite | components/ai-elements/response-with-citations.tsx:27-44 | each token of the text rendered on its own: markers by RenderMarker, plain characters copied (characterised by RewritePlain, RewriteMarker, RewriteWithoutPapers and RewriteWithoutBrackets) |
| ResponseCitations.RewritePlain | components/ai-elements/response-with-citations.tsx:27 | a character that does not open a marker is copied and the rest is rewritten on its own |
| ResponseCitations.RewriteMarker | components/ai-elements/response-with-citations.tsx:27-44 | a leading marker is replaced and the text after it is rewritten on its own: replacements are never read again |
| ResponseCitations.RewriteWithoutPapers | components/ai-elements/response-with-citations.tsx:22-43 | with no papers the rewrite leaves the text unchanged |
| ResponseCitations.RewriteWithoutBrackets | components/ai-elements/response-with-citations.tsx:27 | text without "[" is never changed |
| ResponseCitations.ProcessedContent | components/ai-elements/response-with-citations.tsx:21-45 | the early return for no papers or an empty text agrees with the rewrite |
| ResponseCitations.RewrittenLinksAreCitations | components/ai-elements/response-with-citations.tsx:40-68 | a link made by the rewrite is shown as a paper citation exactly when the paper has a title |
| ResponseCitations.IsPaperCitation | components/ai-elements/response-with-citations.tsx:62-68 | a link is a paper citation exactly when its title and href are truthy and the href contains "semanticscholar.org" or "doi.org", or its text is a whole `[digits]` marker (used by RewrittenLinksAreCitations and DoiLinksAreCitations) |
| ResponseCitations.DoiLinksAreCitations | components/ai-elements/response-with-citations.tsx:62-68 | a titled link to a doi.org address is a paper citation whatever its text |
| Citations.FieldTags | components/ai-elements/citations.tsx:119-123 | at most three tags, the first three fields in order |
| Citations.CitationOf | components/ai-elements/citations.tsx:50-145 | the entry of position i has badge "[i+1]", two authors at most, the APA citation, exactly the first three fields of study, and a year exactly when the paper has a truthy one |
| Citations.CitationList | components/ai-elements/citations.tsx:32-48 | nothing exactly for no papers; otherwise the heading with the count and one entry per paper, numbered in list order |
| Citations.BadgeLinksToItsPaper | components/ai-elements/citations.tsx:64 | the badge number of an entry, used as a marker in the answer, becomes a link to that same paper |
| Citations.TotalCitationsAppend | components/ai-elements/citations.tsx:178-181 | the total of a list is the sum of the totals of its parts |
| Citations.TotalCitationsBound | components/ai-elements/citations.tsx:178-181 | no paper has more citations than the total |
| Citations.TotalCitations | components/ai-elements/citations.tsx:178-181 | the `reduce` from 0 adding each paper's citation count in list order (additive by TotalCitationsAppend, bounding every count by TotalCitationsBound) |
| Citations.YearRangeIsRange | components/ai-elements/citations.tsx:182-188 | the range is set exactly when some paper has a truthy year, and then its ends are the least and the greatest of those years |
| Citations.YearRangeOrdered | components/ai-elements/citations.tsx:182-188 | a set range has its minimum at most its maximum |
| Citations.YearRangeOf | components/ai-elements/citations.tsx:182-188 | the `reduce` from the empty range that skips papers with a falsy year and otherwise widens min and max to the year (characterised by YearRangeIsRange and YearRangeOrdered) |
| Citations.RangeLabel | components/ai-elements/citations.tsx:200-207 | a label exactly when both ends are truthy: the year alone when they agree, "min-max" otherwise |
| Citations.RangeLabelShownIffDated | components/ai-elements/citations.tsx:182-207 | a label is shown exactly when some paper is dated |
| Citations.CitationSummary | components/ai-elements/citations.tsx:175-210 | nothing exactly for no papers; otherwise the paper count, the total of citations and the year label |
| Sidebar.FilteredExact | components/conversation-sidebar.tsx:121-123 | a conversation is kept exactly when it is in the list and its lower-cased title contains the lower-cased query |
| Sidebar.FilteredAppend | components/conversation-sidebar.tsx:121-123 | filtering keeps the original order: filtering a concatenation is concatenating the filtered parts |
| Sidebar.EmptyQueryKeepsAll | components/conversation-sidebar.tsx:121-123 | an empty query keeps every conversation |
| Sidebar.ExactMatchIsKept | components/conversation-sidebar.tsx:121-123 | a title that contains the query as written is kept |
| Sidebar.Filtered | components/conversation-sidebar.tsx:121-123 | the conversations, in order, whose lower-cased title contains the lower-cased query (characterised by FilteredExact and FilteredAppend) |
| Sidebar.SearchResultEntry | components/conversation-sidebar.tsx:128-141 | the entry of a search hit has the conversation's id, the title "Search Result: " with the first 50 characters of the first match and "...", model "Search Result", and both dates the first match's time when it is truthy; otherwise each date is its own clock reading |
| Sidebar.DisplayConversations | components/conversation-sidebar.tsx:126-142 | the search results exactly when the trimmed query is non-empty and there are results, the filtered list otherwise |
| Sidebar.BlankQueryShowsFilter | components/conversation-sidebar.tsx:126-142 | a blank query always shows the filtered list |
| Sidebar.ResultsShownInOrder | components/conversation-sidebar.tsx:126-142 | with a query and results, one entry per result in result order, under its conversation's id |
| Sidebar.SearchResultEntries | components/conversation-sidebar.tsx:128-141 | one entry per hit, in hit order, each the SearchResultEntry of that hit with its own two clock readings |
| Sidebar.GroupNameInjective | components/conversation-sidebar.tsx:157-165 | the four heading names are distinct |
| Sidebar.Classify | components/conversation-sidebar.tsx:152-165 | the heading of one conversation from its update date: Today, Yesterday, This Week after a week ago, Older otherwise (its cases are ClassifyCases) |
| Sidebar.ClassifyCases | components/conversation-sidebar.tsx:152-165 | today's day gives Today, the day before Yesterday, another day after a week ago This Week, anything else (an unreadable date too) Older |
| Sidebar.EarlierIsNeverMoreRecent | components/conversation-sidebar.tsx:152-165 | with a monotone calendar, an earlier past conversation never lands under a more recent heading than a later one |
| Sidebar.FutureIsThisWeek | components/conversation-sidebar.tsx:152-165 | a conversation dated on a later day than today lands in This Week |
| Sidebar.GroupKeysExact | components/conversation-sidebar.tsx:167-170 | a heading appears exactly when some conversation lands there, and at most once |
| Sidebar.GroupKeys | components/conversation-sidebar.tsx:167-170 | the headings in the order the loop first creates them (characterised by GroupKeysExact) |
| Sidebar.MembersBelong | components/conversation-sidebar.tsx:153-171 | a group holds exactly the conversations classified under it |
| Sidebar.Members | components/conversation-sidebar.tsx:153-171 | the conversations under one heading, in list order (characterised by MembersBelong, MembersAppend and GroupsPartition) |
| Sidebar.MembersAppend | components/conversation-sidebar.tsx:153-171 | each group keeps the order of the list |
| Sidebar.GroupsPartition | components/conversation-sidebar.tsx:153-171 | the four groups together hold every conversation exactly as often as the list does |
| Sidebar.GroupStep | components/conversation-sidebar.tsx:153-171 | one more conversation is pushed onto its own group, created when missing, and no other group changes |
| Sidebar.PushTracks | components/conversation-sidebar.tsx:166-170 | one step of the loop keeps the map of groups in step with the reference grouping |
| Sidebar.GroupConversationsByDate | components/conversation-sidebar.tsx:145-174 | the map's keys, in creation order, are the headings that occur, and each holds exactly its members in list order |
| Sidebar.NoEmptyGroups | components/conversation-sidebar.tsx:167-170 | no heading is created without a conversation under it |
| ResearchRoute.SearchLimit | app/api/research/route.ts:31 | the limit is the smaller of twice the number of papers asked for and 20 |
| ResearchRoute.RouteSearchRequest | app/api/research/route.ts:29-33 | the search asks once each for the query, that limit, offset 0 and at least one citation, with no year, venue or field filter |
| ResearchRoute.SliceEnd | app/api/research/route.ts:47 | the end index of `slice(0, end)`: clamped to the length, counted from the back when negative, never below 0 |
| ResearchRoute.SystemPromptShape | app/api/research/route.ts:54-67 | the system prompt starts with the instructions and the paper context and ends with the user's question |
| ResearchRoute.UserPromptQuotes | app/api/research/route.ts:72 | the user prompt asks for a comprehensive answer to the question, which it holds in double quotes as written |
| ResearchRoute.SelectedCount | app/api/research/route.ts:46-47 | exactly the first n of the ranking are kept, all of them when there are fewer |
| ResearchRoute.SelectedComeFromResults | app/api/research/route.ts:46-47 | every kept paper is one of the search results with its score attached |
| ResearchRoute.SelectedAreBest | app/api/research/route.ts:46-47 | the kept papers are the head of the ranking, and no paper left out scores higher than a kept one |
| ResearchRoute.Selected | app/api/research/route.ts:46-47 | the first `numPapers` of the ranking, with the `slice` end rules (characterised by SelectedCount, SelectedComeFromResults and SelectedAreBest) |
| ResearchRoute.ModelReply | app/api/research/route.ts:52-73 | the model is asked with the system prompt over the selected papers' context and the question, and with the user prompt (whose shapes are SystemPromptShape and UserPromptQuotes) |
| ResearchRoute.Answered | app/api/research/route.ts:69-89 | an answer from the model becomes the reply with the papers, the total, the query and the text; a failed model call becomes the 500 error |
| ResearchRoute.AfterSearch | app/api/research/route.ts:29-89 | a failed search gives the 500 error; no papers give the fixed answer with no papers and total 0 without asking the model; otherwise the selection is answered |
| ResearchRoute.ResearchPost | app/api/research/route.ts:13-90 | no session gives 401 "Unauthorized"; an unreadable body 500; a missing or blank query 400 "Query is required"; otherwise the search with the number of papers (default 5) decides |
| ResearchRoute.NoPapersNeedNoModel | app/api/research/route.ts:35-43 | when the search finds nothing the reply does not depend on the model |
| ResearchRoute.AnswerIsBounded | app/api/research/route.ts:13-82 | an answer is only ever given to a signed-in caller with a query; it repeats that query and holds at most as many papers as were asked for |

## Left out

- Markup, styling, icons, the collapsible state of a citation, copy buttons and the `model.split` display of the sidebar, and the link renderer's output: only the values the components compute are modelled.
- Network, database, embedding model, vector index and language model: each is a parameter (a function or a list of matches/rows), so retries, timeouts, headers, authentication with the services, `console` logging and the `maxDuration` setting are not modelled.
- The sidebar's debounced semantic search request (its timer and fetch) and React state: the search results are an input of `DisplayConversations`.
- Concurrency: the limiter and the requests are modelled as sequential calls; two overlapping `waitIfNeeded` calls are not.
- Floating point: scores, the limiter interval and waits are exact reals, and `Math.log(c + 1)` is the parameter `logOnePlus`; rounding is not modelled.
- RateLimiting.RateLimiter.constructor: a rate of 0 is excluded (JavaScript gives an infinite interval), and the default rate of 1 is not a default argument; callers pass it, as the Semantic Scholar limiter does.
- The module-wide limiter singleton is passed to the request methods as a parameter together with the clock.
- URL encoding: the query is the ordered list of key/value pairs URLSearchParams would encode; percent-encoding and the literal details URL field list are not modelled beyond the paper id.
- ResearchPapers.PaperDetailsOf: the 404 branch, the 429 error and the catch all give nothing, as in the code; the model does not distinguish which of them happened.
- Reply bodies arrive already decoded into records; malformed JSON is the unreachable/failed case.
- Dates: timestamps are strings read by a given `parse` function into milliseconds and `dayOf` gives the calendar day; "a week ago" is now minus 7 × 86 400 000 ms, so daylight-saving days and time zones are not modelled; `toISOString`/`toLocaleString` formatting is not modelled.
- Sidebar.SearchResultEntry: the `|| "Untitled"` fallback can never apply (the template string is never empty); a hit without matches gets the title the template produces for `undefined`, "Search Result: undefined...".
- Lower-casing is ASCII only; Unicode case mapping is not modelled.
- Characters are Unicode scalar values: `length`, `slice` and `substring` count UTF-16 code units in JavaScript, so with characters outside the Basic Multilingual Plane the 50-character title limits and the 300-character abstract limit fall at a different place than in the model.
- Sidebar.SearchResultEntries: the fresh `new Date().toISOString()` readings are the values of a given `clock` function, two per hit, rather than the time.
- ResearchPapers.BatchGetPaperDetails: the HTTP API is a function of the URL, so a repeated id gets the same entry both times; the code fetches it again later and may see a different reply.
- RateLimiting.Clock.Sleep: it waits at least the requested time for every duration, while `setTimeout` fires after about 1 ms for delays above 2^31 - 1 ms, which a rate below about 4.7e-7 requests per second would ask for.
- `parseInt` on a very long digit string loses precision in JavaScript; the model reads it exactly.
- ResearchRoute.ResearchPost: a `numPapers` that is not an integer, `null`, or a `query` that is not a string are not modelled (the body is a typed record); the unused `fields` option is dropped.
- ResearchRoute.ModelReply: the model's name and the SDK call are not modelled; the model is a function of the two prompts it is sent.
- Conversations: `getConversationHistory`, `getConversation`, deleting and the database writes of `saveConversation` are plain database calls and are not modelled; the record ids use the saved row's id, and `nanoid`/database id generation is not modelled.
- Conversations.SearchConversations: the plain-text fallback's database query is an input list of rows in query order; only their mapping is modelled.
- ResearchPapers.BatchGetPaperDetails: the spacing guarantee is stated with `Spread`, the n-fold sum of the interval; that it equals n times the interval is the separate lemma `SpreadIsProduct`.
- Citation counts and the number of papers are natural numbers; negative counts from the API are not modelled.
