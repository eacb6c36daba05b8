/** components/ai-elements/citations.tsx: what the citation list and the
    citation summary show for a list of papers. Only the values shown are
    modelled (the numbering, the texts and the two folds of the summary),
    not the markup around them. */
module Citations {
  import opened Optional
  import opened Text
  import opened ResearchTypes
  import ResearchPapers
  import ResponseCitations

  // ---------------------------------------------------------------------
  // The citation list

  /** What one `Citation` shows. Optional parts are absent when the paper
      has no (or an empty) value for them. */
  datatype CitationEntry = CitationEntry(
    badge: string,
    title: string,
    authors: string,
    year: Option<int>,
    citationCount: nat,
    abstractText: Option<string>,
    venue: Option<string>,
    fields: seq<string>,
    apa: string,
    viewUrl: Option<string>)

  /** The field-of-study tags: at most the first three. */
  function FieldTags(fields: Option<seq<string>>): (tags: seq<string>)
    ensures |tags| <= 3
    ensures fields.Some? ==> tags == Take3(fields.value)
    ensures fields.None? ==> tags == []
  {
    if fields.Some? && |fields.value| > 0 then Take3(fields.value) else []
  }

  /** `slice(0, 3)`: the first three elements, in order (all of them when
      there are fewer). */
  function Take3(xs: seq<string>): (r: seq<string>)
    ensures |r| == if |xs| < 3 then |xs| else 3
    ensures r == xs[..|r|]
  {
    if |xs| <= 3 then xs else xs[..3]
  }

  function Shown(s: Option<string>): Option<string> {
    if TruthyString(s) then s else None
  }

  /** The entry for the paper at position `index`: badge "[index + 1]",
      authors cut to two names, the APA citation. */
  function CitationOf(p: ResearchPaper, index: nat): (e: CitationEntry)
    ensures e.badge == "[" + NatToString(index + 1) + "]"
    ensures e.authors == ResearchPapers.FormatAuthors(p.authors, 2)
    ensures e.apa == ResearchPapers.ApaCitation(p)
    ensures |e.fields| <= 3 && e.fields == FieldTags(p.s2FieldsOfStudy)
    ensures e.year.Some? <==> TruthyInt(p.year)
  {
    CitationEntry(
      "[" + NatToString(index + 1) + "]",
      p.title,
      ResearchPapers.FormatAuthors(p.authors, 2),
      if TruthyInt(p.year) then p.year else None,
      p.citationCount,
      Shown(p.abstractText),
      Shown(p.venue),
      FieldTags(p.s2FieldsOfStudy),
      ResearchPapers.ApaCitation(p),
      Shown(p.url))
  }

  /** `Citations`: nothing for no papers, otherwise the heading
      "Research Citations (n)" and one entry per paper, numbered from 1 in
      list order. */
  function CitationList(papers: seq<ResearchPaper>): (r: Option<(string, seq<CitationEntry>)>)
    ensures r.None? <==> papers == []
    ensures r.Some? ==> r.value.0 == "Research Citations (" + NatToString(|papers|) + ")"
    ensures r.Some? ==> |r.value.1| == |papers|
    ensures r.Some? ==> forall i :: 0 <= i < |papers| ==> r.value.1[i] == CitationOf(papers[i], i)
  {
    if papers == [] then None
    else Some(("Research Citations (" + NatToString(|papers|) + ")",
               seq(|papers|, i requires 0 <= i < |papers| => CitationOf(papers[i], i))))
  }

  /** The badge of the i-th entry, read as a marker in the answer text, is
      rewritten into the link to that same paper. */
  lemma BadgeLinksToItsPaper(papers: seq<ResearchPaper>, i: nat)
    requires i < |papers|
    ensures var digits := NatToString(i + 1);
            var p := papers[i];
            ResponseCitations.RenderMarker(papers, digits)
              == "[[" + digits + "]](" + ResponseCitations.LinkUrl(p) + " \"" + ResponseCitations.LinkTitle(p) + "\")"
  {
    ParseDecimalOfNatToString(i + 1);
  }

  // ---------------------------------------------------------------------
  // The summary

  /** `papers.reduce((sum, paper) => sum + paper.citationCount, 0)`. */
  function TotalCitations(papers: seq<ResearchPaper>): nat
    decreases |papers|
  {
    if papers == [] then 0 else TotalCitations(papers[..|papers| - 1]) + papers[|papers| - 1].citationCount
  }

  /** The total of a list is the sum of the totals of its parts. */
  lemma {:induction false} TotalCitationsAppend(a: seq<ResearchPaper>, b: seq<ResearchPaper>)
    ensures TotalCitations(a + b) == TotalCitations(a) + TotalCitations(b)
    decreases |b|
  {
    if b == [] {
      assert a + b == a;
    } else {
      assert (a + b)[..|a + b| - 1] == a + b[..|b| - 1];
      TotalCitationsAppend(a, b[..|b| - 1]);
    }
  }

  /** No paper has more citations than the total. */
  lemma {:induction false} TotalCitationsBound(papers: seq<ResearchPaper>)
    ensures forall i :: 0 <= i < |papers| ==> papers[i].citationCount <= TotalCitations(papers)
    decreases |papers|
  {
    if papers != [] {
      var init := papers[..|papers| - 1];
      TotalCitationsBound(init);
      assert forall i :: 0 <= i < |init| ==> init[i] == papers[i];
    }
  }

  /** The year range accumulator (`{}` at the start). */
  datatype YearRange = YearRange(min: Option<int>, max: Option<int>)

  /** One step of the year fold: papers without a truthy year are skipped;
      otherwise `min(range.min || year, year)` and `max(range.max || year, year)`. */
  function YearStep(range: YearRange, year: Option<int>): YearRange {
    if !TruthyInt(year) then range
    else
      var y := year.value;
      var lo := if TruthyInt(range.min) then range.min.value else y;
      var hi := if TruthyInt(range.max) then range.max.value else y;
      YearRange(Some(if lo <= y then lo else y), Some(if hi >= y then hi else y))
  }

  function YearRangeOf(papers: seq<ResearchPaper>): YearRange
    decreases |papers|
  {
    if papers == [] then YearRange(None, None)
    else YearStep(YearRangeOf(papers[..|papers| - 1]), papers[|papers| - 1].year)
  }

  predicate Dated(p: ResearchPaper) {
    TruthyInt(p.year)
  }

  /** The range is set exactly when some paper is dated, and then its ends
      are the least and the greatest of the dated years. */
  predicate IsRangeOf(range: YearRange, papers: seq<ResearchPaper>) {
    && (range.min.Some? <==> exists i :: 0 <= i < |papers| && Dated(papers[i]))
    && (range.max.Some? <==> range.min.Some?)
    && (range.min.Some? ==>
          && range.min.value != 0 && range.max.value != 0
          && (forall i :: 0 <= i < |papers| && Dated(papers[i]) ==>
                range.min.value <= papers[i].year.value <= range.max.value)
          && (exists i :: 0 <= i < |papers| && Dated(papers[i]) && papers[i].year.value == range.min.value)
          && (exists i :: 0 <= i < |papers| && Dated(papers[i]) && papers[i].year.value == range.max.value))
  }

  lemma {:induction false} YearRangeIsRange(papers: seq<ResearchPaper>)
    ensures IsRangeOf(YearRangeOf(papers), papers)
    decreases |papers|
  {
    if papers != [] {
      var init := papers[..|papers| - 1];
      var last := |papers| - 1;
      YearRangeIsRange(init);
      assert forall i :: 0 <= i < |init| ==> init[i] == papers[i];
      var prev := YearRangeOf(init);
      var r := YearRangeOf(papers);
      if Dated(papers[last]) {
        var y := papers[last].year.value;
        if prev.min.Some? {
          var a :| 0 <= a < |init| && Dated(init[a]) && init[a].year.value == prev.min.value;
          var b :| 0 <= b < |init| && Dated(init[b]) && init[b].year.value == prev.max.value;
          if r.min.value == y {
            assert Dated(papers[last]) && papers[last].year.value == r.min.value;
          } else {
            assert Dated(papers[a]) && papers[a].year.value == r.min.value;
          }
          if r.max.value == y {
            assert Dated(papers[last]) && papers[last].year.value == r.max.value;
          } else {
            assert Dated(papers[b]) && papers[b].year.value == r.max.value;
          }
        } else {
          assert Dated(papers[last]) && papers[last].year.value == r.min.value;
          assert Dated(papers[last]) && papers[last].year.value == r.max.value;
        }
      } else {
        if prev.min.Some? {
          var a :| 0 <= a < |init| && Dated(init[a]) && init[a].year.value == prev.min.value;
          var b :| 0 <= b < |init| && Dated(init[b]) && init[b].year.value == prev.max.value;
          assert Dated(papers[a]) && papers[a].year.value == r.min.value;
          assert Dated(papers[b]) && papers[b].year.value == r.max.value;
        }
      }
    }
  }

  /** The range is well ordered. */
  lemma YearRangeOrdered(papers: seq<ResearchPaper>)
    ensures var r := YearRangeOf(papers);
            r.min.Some? ==> r.max.Some? && r.min.value <= r.max.value
  {
    YearRangeIsRange(papers);
    var r := YearRangeOf(papers);
    if r.min.Some? {
      var i :| 0 <= i < |papers| && Dated(papers[i]) && papers[i].year.value == r.min.value;
    }
  }

  /** The year label: nothing without a range, the one year when both ends
      agree, "min-max" otherwise. */
  function RangeLabel(range: YearRange): (lbl: Option<string>)
    ensures lbl.Some? <==> TruthyInt(range.min) && TruthyInt(range.max)
    ensures lbl.Some? && range.min == range.max ==> lbl.value == IntToString(range.min.value)
    ensures lbl.Some? && range.min != range.max ==>
              lbl.value == IntToString(range.min.value) + "-" + IntToString(range.max.value)
  {
    if TruthyInt(range.min) && TruthyInt(range.max) then
      Some(if range.min.value == range.max.value then IntToString(range.min.value)
           else IntToString(range.min.value) + "-" + IntToString(range.max.value))
    else None
  }

  /** A list with a dated paper shows a label; one without shows none. */
  lemma RangeLabelShownIffDated(papers: seq<ResearchPaper>)
    ensures RangeLabel(YearRangeOf(papers)).Some? <==> exists i :: 0 <= i < |papers| && Dated(papers[i])
  {
    YearRangeIsRange(papers);
  }

  datatype Summary = Summary(paperCount: nat, totalCitations: nat, yearLabel: Option<string>)

  /** `CitationSummary`: nothing for no papers, otherwise the number of
      papers, the total of their citations and the year label. */
  function CitationSummary(papers: seq<ResearchPaper>): (r: Option<Summary>)
    ensures r.None? <==> papers == []
    ensures r.Some? ==> r.value.paperCount == |papers|
    ensures r.Some? ==> r.value.totalCitations == TotalCitations(papers)
    ensures r.Some? ==> r.value.yearLabel == RangeLabel(YearRangeOf(papers))
  {
    if papers == [] then None
    else Some(Summary(|papers|, TotalCitations(papers), RangeLabel(YearRangeOf(papers))))
  }
}
