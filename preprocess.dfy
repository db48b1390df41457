/**
 * The section splitter and relevance filter of the contract pre-processor
 * (app/extractor/preprocess.py). The heading regular expression is abstracted as the list
 * of spans it matches; the date and money patterns as predicates on the combined text.
 */
module Preprocess {
  import opened Text
  import opened Keywords

  /** One heading match: `match.start()` and `match.end()`. */
  datatype Span = Span(start: nat, end: nat)

  /** `re.finditer` yields non-overlapping matches inside the text, left to right. */
  predicate ValidSpans(text: string, matches: seq<Span>) {
    (forall i :: 0 <= i < |matches| ==> matches[i].start <= matches[i].end <= |text|)
    && (forall i :: 0 <= i < |matches| - 1 ==> matches[i].end <= matches[i + 1].start)
  }

  /** A section dictionary: `{"title": ..., "content": ...}`. */
  datatype Section = Section(title: string, content: string)

  /** Where section `i`'s content ends: the next heading's start, or the end of the text. */
  function ContentEnd(text: string, matches: seq<Span>, i: nat): (e: nat)
    requires ValidSpans(text, matches) && i < |matches|
    ensures matches[i].end <= e <= |text|
    ensures e == if i + 1 < |matches| then matches[i + 1].start else |text|
  {
    if i + 1 < |matches| then matches[i + 1].start else |text|
  }

  /** The section heading `i` would open: its stripped match text and stripped body. */
  function Candidate(text: string, matches: seq<Span>, i: nat): Section
    requires ValidSpans(text, matches) && i < |matches|
  {
    Section(Strip(text[matches[i].start..matches[i].end]),
            Strip(text[matches[i].end..ContentEnd(text, matches, i)]))
  }

  /** The section every heading would open, in heading order. */
  function Candidates(text: string, matches: seq<Span>): (cs: seq<Section>)
    requires ValidSpans(text, matches)
    ensures |cs| == |matches| && forall i :: 0 <= i < |matches| ==> cs[i] == Candidate(text, matches, i)
  {
    seq(|matches|, i requires 0 <= i < |matches| => Candidate(text, matches, i))
  }

  /** The sections kept by `if len(content) > 50`, in order. */
  function LongSections(cs: seq<Section>): (out: seq<Section>)
    ensures |out| <= |cs|
    ensures forall s :: s in out ==> s in cs && |s.content| > 50
    decreases |cs|
  {
    if cs == [] then []
    else
      var rest := LongSections(cs[..|cs| - 1]);
      if |cs[|cs| - 1].content| > 50 then rest + [cs[|cs| - 1]] else rest
  }

  /** One more candidate: `LongSections` of a longer prefix appends that candidate when it is long. */
  lemma LongSectionsStep(cs: seq<Section>, i: nat)
    requires i < |cs|
    ensures LongSections(cs[..i + 1])
         == if |cs[i].content| > 50 then LongSections(cs[..i]) + [cs[i]] else LongSections(cs[..i])
  {
    assert cs[..i + 1][..i] == cs[..i];
  }

  /** The result of `split_sections`. */
  function Sections(text: string, matches: seq<Span>): seq<Section>
    requires ValidSpans(text, matches)
  {
    LongSections(Candidates(text, matches))
  }

  /** `split_sections`, given the heading matches. */
  method SplitSections(text: string, matches: seq<Span>) returns (sections: seq<Section>)
    requires ValidSpans(text, matches)
    ensures sections == Sections(text, matches)
  {
    ghost var cs := Candidates(text, matches);
    sections := [];
    for i := 0 to |matches|
      invariant sections == LongSections(cs[..i])
    {
      LongSectionsStep(cs, i);
      var match_ := matches[i];
      var start := match_.end;
      var end := if i + 1 < |matches| then matches[i + 1].start else |text|;
      var title := Strip(text[match_.start..match_.end]);
      var content := Strip(text[start..end]);
      assert cs[i] == Section(title, content);
      if |content| > 50 {
        sections := sections + [Section(title, content)];
      }
    }
    assert cs[..|matches|] == cs;
  }

  /** Which candidates `LongSections` keeps: their positions, increasing. */
  function LongIndices(cs: seq<Section>): (ix: seq<nat>)
    ensures |ix| == |LongSections(cs)|
    ensures forall j :: 0 <= j < |ix| ==> ix[j] < |cs| && LongSections(cs)[j] == cs[ix[j]] && |cs[ix[j]].content| > 50
    ensures forall j, l :: 0 <= j < l < |ix| ==> ix[j] < ix[l]
    decreases |cs|
  {
    if cs == [] then []
    else
      var rest := LongIndices(cs[..|cs| - 1]);
      if |cs[|cs| - 1].content| > 50 then rest + [|cs| - 1] else rest
  }

  /** Every candidate with more than 50 characters of content is kept. */
  lemma {:induction false} LongCandidatesKept(cs: seq<Section>, i: nat)
    requires i < |cs| && |cs[i].content| > 50
    ensures cs[i] in LongSections(cs)
    decreases |cs|
  {
    if i < |cs| - 1 {
      LongCandidatesKept(cs[..|cs| - 1], i);
    }
  }

  /**
   * Every emitted section is the stripped heading and stripped body of some heading, with
   * more than 50 characters of body, and that body lies after the first heading: text
   * before the first heading is never emitted.
   */
  lemma SectionsAfterFirstHeading(text: string, matches: seq<Span>, j: nat)
    requires ValidSpans(text, matches) && j < |Sections(text, matches)|
    ensures var s := Sections(text, matches)[j];
      |s.content| > 50
      && exists i :: 0 <= i < |matches| && matches[0].end <= matches[i].end
                     && s == Section(Strip(text[matches[i].start..matches[i].end]),
                                     Strip(text[matches[i].end..ContentEnd(text, matches, i)]))
  {
    var cs := Candidates(text, matches);
    var ix := LongIndices(cs);
    var i := ix[j];
    if i > 0 {
      SpansOrdered(text, matches, 0, i);
    }
    assert Sections(text, matches)[j] == Candidate(text, matches, i);
  }

  lemma {:induction false} SpansOrdered(text: string, matches: seq<Span>, i: nat, l: nat)
    requires ValidSpans(text, matches) && i <= l < |matches|
    ensures matches[i].end <= matches[l].end
    decreases l - i
  {
    if i < l {
      SpansOrdered(text, matches, i + 1, l);
    }
  }

  /** `f"{title}\n{content}"`. */
  function Combined(s: Section): string {
    s.title + "\n" + s.content
  }

  /** `any(k.lower() in sec_lower for k in RELEVANT_KEYWORDS)`: a case-insensitive substring test. */
  predicate HasKeyword(combined: string, keywords: seq<string>) {
    exists k :: 0 <= k < |keywords| && Contains(Lower(combined), Lower(keywords[k]))
  }

  /** The filter's test, for a keyword list and the two pattern searches. */
  predicate Relevant(s: Section, keywords: seq<string>, hasDate: string -> bool, hasMoney: string -> bool) {
    HasKeyword(Combined(s), keywords) || hasDate(Combined(s)) || hasMoney(Combined(s))
  }

  /** The result of `filter_relevant_sections`: the combined strings of the relevant sections, in order. */
  function RelevantSections(sections: seq<Section>, keywords: seq<string>, hasDate: string -> bool, hasMoney: string -> bool): seq<string>
    decreases |sections|
  {
    if sections == [] then []
    else
      var rest := RelevantSections(sections[..|sections| - 1], keywords, hasDate, hasMoney);
      var s := sections[|sections| - 1];
      if Relevant(s, keywords, hasDate, hasMoney) then rest + [Combined(s)] else rest
  }

  /** `filter_relevant_sections`; `hasDate` and `hasMoney` stand for the two pattern searches. */
  method FilterRelevantSections(sections: seq<Section>, hasDate: string -> bool, hasMoney: string -> bool)
    returns (relevantSections: seq<string>)
    ensures relevantSections == RelevantSections(sections, RelevantKeywords, hasDate, hasMoney)
  {
    var keywords := RelevantKeywords;
    relevantSections := [];
    for i := 0 to |sections|
      invariant relevantSections == RelevantSections(sections[..i], keywords, hasDate, hasMoney)
    {
      var sec := sections[i];
      assert sections[..i + 1][..i] == sections[..i];
      var combinedContent := sec.title + "\n" + sec.content;
      var hasKeyword := HasKeyword(combinedContent, keywords);
      var dateFound := hasDate(combinedContent);
      var moneyFound := hasMoney(combinedContent);
      if hasKeyword || dateFound || moneyFound {
        relevantSections := relevantSections + [combinedContent];
      }
    }
    assert sections[..|sections|] == sections;
  }

  /** `out` keeps some of the elements of `xs`, in their order. */
  predicate SubsequenceOf(out: seq<string>, xs: seq<string>)
    decreases |xs|
  {
    if xs == [] then out == []
    else (out != [] && out[|out| - 1] == xs[|xs| - 1] && SubsequenceOf(out[..|out| - 1], xs[..|xs| - 1]))
         || SubsequenceOf(out, xs[..|xs| - 1])
  }

  lemma {:induction false} SubsequenceIsShorter(out: seq<string>, xs: seq<string>)
    requires SubsequenceOf(out, xs)
    ensures |out| <= |xs|
    decreases |xs|
  {
    if xs != [] {
      if out != [] && out[|out| - 1] == xs[|xs| - 1] && SubsequenceOf(out[..|out| - 1], xs[..|xs| - 1]) {
        SubsequenceIsShorter(out[..|out| - 1], xs[..|xs| - 1]);
      } else {
        SubsequenceIsShorter(out, xs[..|xs| - 1]);
      }
    }
  }

  function CombinedAll(sections: seq<Section>): (r: seq<string>)
    ensures |r| == |sections| && forall k :: 0 <= k < |sections| ==> r[k] == Combined(sections[k])
  {
    seq(|sections|, k requires 0 <= k < |sections| => Combined(sections[k]))
  }

  /**
   * The filter's output is a subsequence of the combined strings of its input (so no longer
   * than the input), and every string it keeps is that of a relevant section.
   */
  lemma {:induction false} FilterIsSubsequence(sections: seq<Section>, keywords: seq<string>, hasDate: string -> bool, hasMoney: string -> bool)
    ensures SubsequenceOf(RelevantSections(sections, keywords, hasDate, hasMoney), CombinedAll(sections))
    ensures |RelevantSections(sections, keywords, hasDate, hasMoney)| <= |sections|
    ensures forall x :: x in RelevantSections(sections, keywords, hasDate, hasMoney) ==>
      exists k :: 0 <= k < |sections| && Relevant(sections[k], keywords, hasDate, hasMoney) && x == Combined(sections[k])
    decreases |sections|
  {
    var out := RelevantSections(sections, keywords, hasDate, hasMoney);
    if sections != [] {
      var init := sections[..|sections| - 1];
      FilterIsSubsequence(init, keywords, hasDate, hasMoney);
      assert CombinedAll(sections)[..|sections| - 1] == CombinedAll(init);
      var rest := RelevantSections(init, keywords, hasDate, hasMoney);
      if Relevant(sections[|sections| - 1], keywords, hasDate, hasMoney) {
        assert out[..|out| - 1] == rest;
      }
      forall x | x in out
        ensures exists k :: 0 <= k < |sections| && Relevant(sections[k], keywords, hasDate, hasMoney) && x == Combined(sections[k])
      {
        if x in rest {
          var k :| 0 <= k < |init| && Relevant(init[k], keywords, hasDate, hasMoney) && x == Combined(init[k]);
          assert sections[k] == init[k];
        } else {
          assert x == Combined(sections[|sections| - 1]);
        }
      }
    }
    SubsequenceIsShorter(out, CombinedAll(sections));
  }

  /** A section filtered in is exactly one the test accepts: relevant sections are all kept. */
  lemma {:induction false} RelevantSectionsKept(sections: seq<Section>, keywords: seq<string>, hasDate: string -> bool,
                                                hasMoney: string -> bool, k: nat)
    requires k < |sections| && Relevant(sections[k], keywords, hasDate, hasMoney)
    ensures Combined(sections[k]) in RelevantSections(sections, keywords, hasDate, hasMoney)
    decreases |sections|
  {
    if k < |sections| - 1 {
      RelevantSectionsKept(sections[..|sections| - 1], keywords, hasDate, hasMoney, k);
    }
  }

  /** The keyword test ignores case: an upper-cased or lower-cased section matches the same keywords. */
  lemma KeywordIgnoresCase(combined: string, keywords: seq<string>)
    ensures HasKeyword(Upper(combined), keywords) <==> HasKeyword(combined, keywords)
    ensures HasKeyword(Lower(combined), keywords) <==> HasKeyword(combined, keywords)
  {
    LowerForgetsCase(combined);
  }
}
