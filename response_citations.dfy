/** components/ai-elements/response-with-citations.tsx: before the answer is
    rendered as Markdown, every marker "[n]" that names one of the papers is
    rewritten into a Markdown link to that paper; and a rendered link counts
    as a paper citation when `isPaperCitation` holds.

    The rewrite is `text.replace(/\[(\d+)\]/g, ...)`: the text is read left
    to right as a sequence of tokens, each either one plain character or a
    marker "[digits]"; markers do not overlap and a replacement is never
    read again. */
module ResponseCitations {
  import opened Optional
  import opened Text
  import opened ResearchTypes
  import ResearchPapers

  datatype Token = Plain(c: char) | Marker(digits: string)

  /** The number of decimal digits `s` starts with. */
  function DigitRun(s: string): (k: nat)
    ensures k <= |s| && AllDigits(s[..k]) && (k == |s| || !IsDigit(s[k]))
    decreases |s|
  {
    if s != [] && IsDigit(s[0]) then
      var k := 1 + DigitRun(s[1..]);
      assert s[..k] == [s[0]] + s[1..][..k - 1];
      k
    else 0
  }

  /** The number of digits of the marker `s` starts with, or 0 when it does
      not start with one: a "[", a maximal run of at least one digit, "]". */
  function MarkerLength(s: string): (k: nat)
    ensures k > 0 ==> k + 2 <= |s| && s[0] == '[' && s[k + 1] == ']' && AllDigits(s[1..k + 1])
  {
    if |s| >= 3 && s[0] == '[' then
      var k := DigitRun(s[1..]);
      assert s[1..][..k] == s[1..k + 1];
      if k > 0 && k + 1 < |s| && s[k + 1] == ']' then k else 0
    else 0
  }

  /** The token the text starts with: a marker when it starts with one,
      its first character otherwise. */
  function Front(s: string): Token
    requires s != []
  {
    var k := MarkerLength(s);
    if k > 0 then Marker(s[1..k + 1]) else Plain(s[0])
  }

  /** The number of characters the front token takes. */
  function FrontLength(s: string): (n: nat)
    requires s != []
    ensures 1 <= n <= |s|
  {
    var k := MarkerLength(s);
    if k > 0 then k + 2 else 1
  }

  /** The text as the regular expression sees it, from the left. */
  function Tokenize(s: string): (ts: seq<Token>)
    decreases |s|
  {
    if s == [] then [] else [Front(s)] + Tokenize(s[FrontLength(s)..])
  }

  function SpellToken(t: Token): string {
    match t
    case Plain(c) => [c]
    case Marker(digits) => "[" + digits + "]"
  }

  function Spell(ts: seq<Token>): string {
    if ts == [] then "" else SpellToken(ts[0]) + Spell(ts[1..])
  }

  /** The front token spells the characters it was read from. */
  lemma SpellFront(s: string)
    requires s != []
    ensures SpellToken(Front(s)) == s[..FrontLength(s)]
  {
    var k := MarkerLength(s);
    if k > 0 {
      assert s[..k + 2] == "[" + s[1..k + 1] + "]";
    } else {
      assert s[..1] == [s[0]];
    }
  }

  /** Tokenizing loses nothing: spelling the tokens gives the text back. */
  lemma {:induction false} SpellTokenize(s: string)
    ensures Spell(Tokenize(s)) == s
    decreases |s|
  {
    if s != [] {
      var n := FrontLength(s);
      var rest := s[n..];
      var ts := Tokenize(s);
      SpellTokenize(rest);
      SpellFront(s);
      assert ts[0] == Front(s) && ts[1..] == Tokenize(rest);
      assert Spell(ts) == SpellToken(ts[0]) + Spell(ts[1..]);
      assert s == s[..n] + rest;
    }
  }

  /** The target of a citation link: the paper's URL, or its Semantic
      Scholar page when the URL is empty. */
  function LinkUrl(p: ResearchPaper): (url: string)
    ensures url != ""
    ensures TruthyString(p.url) ==> url == p.url.value
  {
    OrString(p.url, ResearchPapers.SemanticScholarUrl(p.paperId))
  }

  /** The tooltip of a citation link: the title, cut to 50 characters and
      "..." when it is longer. */
  function LinkTitle(p: ResearchPaper): (title: string)
    ensures |title| <= 53 && StartsWith(title, Take(p.title, 50))
    ensures |p.title| <= 50 ==> title == p.title
    ensures |p.title| > 50 ==> title == p.title[..50] + "..."
  {
    Ellipsize(p.title, 50)
  }

  /** What one marker becomes: a link when its number names a paper (the
      n-th, counting from 1), the marker itself otherwise. The link keeps
      the digits as written. */
  function RenderMarker(papers: seq<ResearchPaper>, digits: string): (r: string)
    requires AllDigits(digits)
    ensures 1 <= ParseDecimal(digits) <= |papers| ==>
              var p := papers[ParseDecimal(digits) - 1];
              r == "[[" + digits + "]](" + LinkUrl(p) + " \"" + LinkTitle(p) + "\")"
    ensures !(1 <= ParseDecimal(digits) <= |papers|) ==> r == "[" + digits + "]"
  {
    var n := ParseDecimal(digits);
    if 1 <= n <= |papers| then
      var p := papers[n - 1];
      "[[" + digits + "]](" + LinkUrl(p) + " \"" + LinkTitle(p) + "\")"
    else "[" + digits + "]"
  }

  predicate WellFormed(ts: seq<Token>) {
    forall i :: 0 <= i < |ts| && ts[i].Marker? ==> AllDigits(ts[i].digits)
  }

  lemma {:induction false} TokenizeWellFormed(s: string)
    ensures WellFormed(Tokenize(s))
    decreases |s|
  {
    if s != [] {
      var k := MarkerLength(s);
      if k > 0 {
        TokenizeWellFormed(s[k + 2..]);
        assert Tokenize(s)[1..] == Tokenize(s[k + 2..]);
      } else {
        TokenizeWellFormed(s[1..]);
        assert Tokenize(s)[1..] == Tokenize(s[1..]);
      }
    }
  }

  function Render(papers: seq<ResearchPaper>, ts: seq<Token>): string
    requires WellFormed(ts)
  {
    if ts == [] then ""
    else
      (match ts[0]
       case Plain(c) => [c]
       case Marker(digits) => RenderMarker(papers, digits))
      + Render(papers, ts[1..])
  }

  /** The callback of `replace` applied to every marker of the text. */
  function Rewrite(text: string, papers: seq<ResearchPaper>): string {
    TokenizeWellFormed(text);
    Render(papers, Tokenize(text))
  }

  /** A character that does not open a marker is copied, and the rest of the
      text is rewritten on its own. */
  lemma RewritePlain(text: string, papers: seq<ResearchPaper>)
    requires text != [] && MarkerLength(text) == 0
    ensures Rewrite(text, papers) == [text[0]] + Rewrite(text[1..], papers)
  {
    TokenizeWellFormed(text);
    assert Tokenize(text)[1..] == Tokenize(text[1..]);
  }

  /** A marker at the front is replaced, and the text after it is rewritten
      on its own: the replacement is never read again. */
  lemma RewriteMarker(digits: string, rest: string, papers: seq<ResearchPaper>)
    requires digits != [] && AllDigits(digits)
    ensures Rewrite("[" + digits + "]" + rest, papers) == RenderMarker(papers, digits) + Rewrite(rest, papers)
  {
    var s := "[" + digits + "]" + rest;
    assert s[1..] == digits + ("]" + rest);
    DigitRunOfDigits(digits, "]" + rest);
    assert MarkerLength(s) == |digits|;
    assert s[1..|digits| + 1] == digits;
    assert s[|digits| + 2..] == rest;
    TokenizeWellFormed(s);
    assert Tokenize(s)[1..] == Tokenize(rest);
  }

  lemma {:induction false} DigitRunOfDigits(digits: string, rest: string)
    requires AllDigits(digits) && (rest == [] || !IsDigit(rest[0]))
    ensures DigitRun(digits + rest) == |digits|
    decreases |digits|
  {
    if digits != [] {
      assert (digits + rest)[1..] == digits[1..] + rest;
      DigitRunOfDigits(digits[1..], rest);
    } else {
      assert digits + rest == rest;
    }
  }

  /** Markers that name no paper, and all plain text, come out as they went
      in: with no papers the text is unchanged. */
  lemma {:induction false} RenderWithoutPapers(ts: seq<Token>)
    requires WellFormed(ts)
    ensures Render([], ts) == Spell(ts)
    decreases |ts|
  {
    if ts != [] {
      RenderWithoutPapers(ts[1..]);
    }
  }

  lemma RewriteWithoutPapers(text: string)
    ensures Rewrite(text, []) == text
  {
    TokenizeWellFormed(text);
    RenderWithoutPapers(Tokenize(text));
    SpellTokenize(text);
  }

  /** Text without a "[" is never changed. */
  lemma {:induction false} RewriteWithoutBrackets(text: string, papers: seq<ResearchPaper>)
    requires forall i :: 0 <= i < |text| ==> text[i] != '['
    ensures Rewrite(text, papers) == text
    decreases |text|
  {
    if text != [] {
      RewritePlain(text, papers);
      RewriteWithoutBrackets(text[1..], papers);
    }
  }

  /** `processedContent`: the text unchanged when there are no papers or no
      text, the rewrite otherwise. */
  function ProcessedContent(children: string, papers: seq<ResearchPaper>): (r: string)
    ensures r == Rewrite(children, papers)
  {
    if |papers| == 0 || children == "" then
      RewriteWithoutPapers(children);
      children
    else Rewrite(children, papers)
  }

  /** The link text `^\[\d+\]$`. */
  predicate IsMarkerText(t: string) {
    |t| >= 3 && t[0] == '[' && t[|t| - 1] == ']' && AllDigits(t[1..|t| - 1])
  }

  /** `isPaperCitation`: a link with a title and a target that points at
      Semantic Scholar or a DOI, or whose text is a marker. The link text is
      absent when it is not a plain string. */
  predicate IsPaperCitation(title: Option<string>, href: Option<string>, linkText: Option<string>) {
    && TruthyString(title)
    && TruthyString(href)
    && (|| Contains(href.value, "semanticscholar.org")
        || Contains(href.value, "doi.org")
        || (linkText.Some? && IsMarkerText(linkText.value)))
  }

  /** A link produced by the rewrite is shown as a paper citation exactly
      when the paper has a title. */
  lemma RewrittenLinksAreCitations(p: ResearchPaper, digits: string)
    requires digits != [] && AllDigits(digits)
    ensures IsPaperCitation(Some(LinkTitle(p)), Some(LinkUrl(p)), Some("[" + digits + "]")) <==> p.title != ""
  {
    var t := "[" + digits + "]";
    assert t[1..|t| - 1] == digits;
    if p.title != "" {
      assert LinkTitle(p) != "";
    }
  }

  /** A link without a title is never a paper citation. */
  lemma UntitledLinksAreNotCitations(href: Option<string>, linkText: Option<string>)
    ensures !IsPaperCitation(Some(""), href, linkText) && !IsPaperCitation(None, href, linkText)
  {
  }

  /** A link to a DOI is a citation whatever its text. */
  lemma DoiLinksAreCitations(title: string, doi: string, linkText: Option<string>)
    requires title != ""
    ensures IsPaperCitation(Some(title), Some(ResearchPapers.DoiLink(doi)), linkText)
  {
    var link := ResearchPapers.DoiLink(doi);
    assert link[8..8 + |"doi.org"|] == "doi.org";
    ContainsAt(link, "doi.org", 8);
  }
}
