/** The paper records of types/research.ts. */
module ResearchTypes {
  import opened Optional

  datatype Author = Author(authorId: Option<string>, name: string)

  /** A paper as the application uses it; `relevanceScore` is attached by
      ranking. Citation counts are non-negative. */
  datatype ResearchPaper = ResearchPaper(
    paperId: string,
    title: string,
    abstractText: Option<string>,   // the `abstract` field
    year: Option<int>,
    authors: seq<Author>,
    venue: Option<string>,
    citationCount: nat,
    url: Option<string>,
    doi: Option<string>,
    s2FieldsOfStudy: Option<seq<string>>,
    relevanceScore: Option<real>)

  /** The arguments of a paper search; absent fields are `undefined`. */
  datatype PaperSearchParams = PaperSearchParams(
    query: string,
    limit: Option<int>,
    offset: Option<int>,
    year: Option<string>,
    fieldsOfStudy: Option<seq<string>>,
    venue: Option<string>,
    minCitationCount: Option<int>)
}
