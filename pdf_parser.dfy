/** The PDF parser's section detection: each page's text is split into
    lines, and a stripped line matching one of the header patterns is a
    section header. Pages are read in order; a header closes the open
    section at the previous page and opens a new one on its own page, and
    the whole text of a page goes to the section open after the page's
    headers. */
module PdfParser {
  import opened Wrappers
  import opened Text
  import opened Documents
  import opened Keywords
  import opened Titles

  /** A detected header: its section type, number, title and level. */
  datatype Header = Header(sectionType: string, number: Option<string>, title: string, level: int)

  /** A header pattern and the category it reports. The "numbered" pattern
      is the numbered-header pattern; each other one is a list of prefixes
      matched regardless of case (an optional final `S` in the original
      alternatives never changes whether a prefix matches). */
  datatype Pattern = Pattern(category: string, prefixes: seq<string>)

  const Patterns: seq<Pattern> := [
    Pattern("numbered", []),
    Pattern("eligibility", ["inclusion criteria", "exclusion criteria", "eligibility criteria"]),
    Pattern("objectives", ["study objective", "primary objective", "secondary objective"]),
    Pattern("design", ["study design", "trial design"]),
    Pattern("safety", ["safety assessment", "adverse event"])]

  predicate PatternMatches(p: Pattern, line: string) {
    if p.category == "numbered" then HeaderNumber(line).Some?
    else exists k :: 0 <= k < |p.prefixes| && StartsWith(Lower(line), p.prefixes[k])
  }

  /** `_classify_section`: the category is not consulted; the title decides
      by the same keyword table as the Word parser. */
  function ClassifySection(title: string, category: string): (r: string)
    ensures r == "other" <==> NoRowMatches(Lower(title), SectionTypeTable)
    ensures forall at :: OccursAt(Lower(title), "inclusion", at) ==> r == "inclusion_criteria"
  {
    ClassifyTitleFirstMatch(title, 0);
    forall at | OccursAt(Lower(title), "inclusion", at)
      ensures ClassifySectionFromTitle(title) == "inclusion_criteria"
    {
      InclusionBeforeExclusion(title, at);
    }
    ClassifySectionFromTitle(title)
  }

  /** The index of the first pattern from `k` on that matches `line`. */
  function FirstPattern(line: string, k: nat): (r: Option<nat>)
    decreases |Patterns| - k
  {
    if k >= |Patterns| then None
    else if PatternMatches(Patterns[k], line) then Some(k)
    else FirstPattern(line, k + 1)
  }

  /** The header a pattern reports for a stripped line. */
  function HeaderFor(line: string, category: string): Header {
    Header(ClassifySection(line, category),
           if category == "numbered" then HeaderNumber(line) else None,
           line,
           if category == "numbered" then CountChar(line, '.') else 0)
  }

  /** The header a stripped, non-empty line is, if any. */
  function LineHeader(line: string): (r: Option<Header>)
    ensures r.Some? ==> r.value.title == line
    ensures r.Some? && r.value.number.None? ==> r.value.level == 0
  {
    FirstPatternSpec(line, 0);
    match FirstPattern(line, 0)
    case Some(k) => Some(HeaderFor(line, Patterns[k].category))
    case None => None
  }

  /** The headers among `lines`, in order. */
  function HeadersOf(lines: seq<string>): (r: seq<Header>)
    ensures |r| <= |lines|
    decreases |lines|
  {
    if lines == [] then []
    else
      var l := Strip(lines[|lines| - 1]);
      HeadersOf(lines[..|lines| - 1]) + if l != [] && LineHeader(l).Some? then [LineHeader(l).value] else []
  }

  /** The headers of a page's text, at most one per line. */
  function Headers(text: string): (r: seq<Header>)
    ensures |r| <= |SplitOn(text, '\n')|
  {
    HeadersOf(SplitOn(text, '\n'))
  }

  // ---------------------------------------------------------------------
  // What a line is

  lemma {:induction false} FirstPatternSpec(line: string, k: nat)
    requires k <= |Patterns|
    ensures FirstPattern(line, k).None? <==> forall q :: k <= q < |Patterns| ==> !PatternMatches(Patterns[q], line)
    ensures FirstPattern(line, k).Some? ==> var q := FirstPattern(line, k).value;
      k <= q < |Patterns| && PatternMatches(Patterns[q], line)
      && forall q' :: k <= q' < q ==> !PatternMatches(Patterns[q'], line)
    decreases |Patterns| - k
  {
    if k < |Patterns| && !PatternMatches(Patterns[k], line) {
      FirstPatternSpec(line, k + 1);
    }
  }

  /** A line is a header exactly when it is a numbered header or starts
      with one of the standalone header phrases, and a header's number is
      the numbered-header pattern's group, so it is absent for standalone
      headers. */
  lemma LineHeaderSpec(line: string)
    ensures LineHeader(line).Some? <==> exists q :: 0 <= q < |Patterns| && PatternMatches(Patterns[q], line)
    ensures LineHeader(line).Some? ==>
      var h := LineHeader(line).value;
      h.number == HeaderNumber(line) && h.title == line
      && h.sectionType == ClassifySectionFromTitle(line)
      && h.level == if HeaderNumber(line).Some? then CountChar(line, '.') else 0
  {
    FirstPatternSpec(line, 0);
    if LineHeader(line).Some? {
      var q := FirstPattern(line, 0).value;
      if q != 0 {
        assert !PatternMatches(Patterns[0], line);
      }
    }
  }

  // ---------------------------------------------------------------------
  // `_detect_sections`

  /** `_detect_sections`: each non-empty stripped line is tried against the
      patterns in order, and the first that matches makes it a header. */
  method DetectSections(text: string) returns (headers: seq<Header>)
    ensures headers == Headers(text)
  {
    var lines := SplitOn(text, '\n');
    headers := [];
    var i := 0;
    while i < |lines|
      invariant 0 <= i <= |lines|
      invariant headers == HeadersOf(lines[..i])
    {
      headers := DetectLine(lines, i, headers);
      i := i + 1;
    }
    assert lines[..i] == lines;
  }

  /** One line of `_detect_sections`: a non-empty stripped line that some
      pattern matches adds its header. */
  method DetectLine(lines: seq<string>, i: nat, headers: seq<Header>) returns (headers': seq<Header>)
    requires i < |lines| && headers == HeadersOf(lines[..i])
    ensures headers' == HeadersOf(lines[..i + 1])
  {
    assert lines[..i + 1][..i] == lines[..i];
    assert lines[..i + 1][i] == lines[i];
    var line := Strip(lines[i]);
    headers' := headers;
    if line != [] {
      var found := MatchPatterns(line);
      if found.Some? {
        headers' := headers + [HeaderFor(line, found.value)];
      }
    }
  }

  /** The inner loop over the patterns: the category of the first one that
      matches. */
  method MatchPatterns(line: string) returns (category: Option<string>)
    ensures category.Some? <==> LineHeader(line).Some?
    ensures category.Some? ==> LineHeader(line).value == HeaderFor(line, category.value)
  {
    category := None;
    var k := 0;
    while k < |Patterns|
      invariant 0 <= k <= |Patterns|
      invariant FirstPattern(line, 0) == FirstPattern(line, k)
      decreases |Patterns| - k
    {
      if PatternMatches(Patterns[k], line) {
        category := Some(Patterns[k].category);
        return;
      }
      k := k + 1;
    }
  }

  // ---------------------------------------------------------------------
  // The page loop, specified

  /** The text of a page; a page the extractor reads no text from counts
      as empty. */
  function PageText(page: Option<string>): string {
    if page.Some? then page.value else ""
  }

  /** The page texts the parser returns. */
  function PageTexts(pages: seq<Option<string>>): (r: seq<string>)
    ensures |r| == |pages| && forall q :: 0 <= q < |pages| ==> r[q] == PageText(pages[q])
  {
    seq(|pages|, q requires 0 <= q < |pages| => PageText(pages[q]))
  }

  /** The headers detected on each page. */
  function PageHeaders(texts: seq<string>): (r: seq<seq<Header>>)
    ensures |r| == |texts|
  {
    seq(|texts|, q requires 0 <= q < |texts| => Headers(texts[q]))
  }

  lemma PageHeadersAt(texts: seq<string>, q: nat)
    requires q < |texts|
    ensures PageHeaders(texts)[q] == Headers(texts[q])
  {
  }

  /** The headers of page `n`, tagged with it. */
  function PageTags(n: nat, hs: seq<Header>): (r: seq<(nat, Header)>)
    ensures |r| == |hs| && forall j :: 0 <= j < |hs| ==> r[j] == (n, hs[j])
  {
    seq(|hs|, j requires 0 <= j < |hs| => (n, hs[j]))
  }

  /** The headers of all pages, given page by page, in order, each with
      its page number (counted from 1). */
  function Tagged(heads: seq<seq<Header>>): (r: seq<(nat, Header)>)
    ensures forall k :: 0 <= k < |r| ==> 1 <= r[k].0 <= |heads|
    decreases |heads|
  {
    if heads == [] then []
    else Tagged(heads[..|heads| - 1]) + PageTags(|heads|, heads[|heads| - 1])
  }

  /** The text of pages `a` to `b` (counted from 1), each followed by a
      newline; empty when `b < a`. */
  function PagesText(texts: seq<string>, a: nat, b: nat): string
    requires 1 <= a && b <= |texts|
    decreases b
  {
    if b < a then "" else PagesText(texts, a, b - 1) + texts[b - 1] + "\n"
  }

  /** The page on which section `k` ends: the page before the next
      header's page, or the last page. */
  function EndPage(heads: seq<seq<Header>>, k: nat): (e: nat)
    requires k < |Tagged(heads)|
    ensures e <= |heads|
  {
    var tags := Tagged(heads);
    if k + 1 < |tags| then tags[k + 1].0 - 1 else |heads|
  }

  /** Section `k` of the document: opened by the `k`-th header on its
      page, closed on its end page, holding the text of the pages from its
      own to its end page. */
  function PdfSection(texts: seq<string>, heads: seq<seq<Header>>, k: nat): Section
    requires |heads| == |texts| && k < |Tagged(heads)|
  {
    var (s, h) := Tagged(heads)[k];
    var e := EndPage(heads, k);
    Section(Some(k), h.sectionType, h.number, h.title, h.level, Some(s), Some(e), PagesText(texts, s, e))
  }

  /** The sections of pages with the given texts and headers. */
  function PagedSections(texts: seq<string>, heads: seq<seq<Header>>): (r: seq<Section>)
    requires |heads| == |texts|
    ensures |r| == |Tagged(heads)|
    ensures forall k :: 0 <= k < |r| ==> r[k] == PdfSection(texts, heads, k)
  {
    seq(|Tagged(heads)|, k requires 0 <= k < |Tagged(heads)| => PdfSection(texts, heads, k))
  }

  /** The sections of a document with the given page texts. */
  function PdfSections(texts: seq<string>): (r: seq<Section>)
    ensures forall k :: 0 <= k < |r| ==> r[k].index == Some(k) && r[k].startPage.Some? && r[k].endPage.Some?
  {
    PagedSections(texts, PageHeaders(texts))
  }

  // ---------------------------------------------------------------------
  // What the reference definition promises

  lemma PrefixOfPrefix<T>(s: seq<T>, a: seq<T>, b: seq<T>)
    requires |a + b| <= |s| && s[..|a + b|] == a + b
    ensures s[..|a|] == a
  {
    assert (a + b)[..|a|] == a;
  }

  lemma PrefixSnoc<T>(s: seq<T>, i: nat)
    requires i < |s|
    ensures s[..i + 1] == s[..i] + [s[i]]
  {
  }

  /** Page `i + 1` adds its own headers after those of the pages before. */
  lemma TaggedNext(heads: seq<seq<Header>>, i: nat)
    requires i < |heads|
    ensures Tagged(heads[..i + 1]) == Tagged(heads[..i]) + PageTags(i + 1, heads[i])
  {
    assert heads[..i + 1][..i] == heads[..i];
  }

  /** The headers of the first `i` pages come first, in the same order. */
  lemma {:induction false} TaggedPrefix(heads: seq<seq<Header>>, i: nat)
    requires i <= |heads|
    ensures |Tagged(heads[..i])| <= |Tagged(heads)|
    ensures Tagged(heads)[..|Tagged(heads[..i])|] == Tagged(heads[..i])
    decreases |heads| - i
  {
    if i == |heads| {
      assert heads[..i] == heads;
    } else {
      TaggedPrefix(heads, i + 1);
      TaggedNext(heads, i);
      PrefixOfPrefix(Tagged(heads), Tagged(heads[..i]), PageTags(i + 1, heads[i]));
    }
  }

  /** The headers of page `i + 1` follow those of the pages before it
      among all the tagged headers. */
  lemma PageTagsAt(heads: seq<seq<Header>>, i: nat)
    requires i < |heads|
    ensures |Tagged(heads[..i + 1])| == |Tagged(heads[..i])| + |heads[i]| <= |Tagged(heads)|
    ensures forall j :: 0 <= j < |heads[i]| ==> Tagged(heads)[|Tagged(heads[..i])| + j] == (i + 1, heads[i][j])
  {
    var m0 := |Tagged(heads[..i])|;
    TaggedNext(heads, i);
    TaggedPrefix(heads, i + 1);
    forall j | 0 <= j < |heads[i]|
      ensures Tagged(heads)[m0 + j] == (i + 1, heads[i][j])
    {
      assert Tagged(heads)[m0 + j] == Tagged(heads[..i + 1])[m0 + j];
    }
  }

  /** Headers are met in page order. */
  lemma {:induction false} TaggedOrdered(heads: seq<seq<Header>>)
    ensures forall k, k' :: 0 <= k <= k' < |Tagged(heads)| ==> Tagged(heads)[k].0 <= Tagged(heads)[k'].0
    decreases |heads|
  {
    if heads != [] {
      TaggedOrdered(heads[..|heads| - 1]);
    }
  }

  /** Sections are numbered consecutively, start in page order, and each
      ends on the page before the next one starts; the last ends on the
      last page. */
  lemma PdfSectionPages(texts: seq<string>)
    ensures var r := PdfSections(texts);
      (forall k :: 0 <= k < |r| ==> r[k].index == Some(k) && r[k].startPage.Some? && r[k].endPage.Some?)
      && (forall k, k' :: 0 <= k <= k' < |r| ==> r[k].startPage.value <= r[k'].startPage.value)
      && (forall k :: 0 <= k < |r| - 1 ==> r[k].endPage.value == r[k + 1].startPage.value - 1)
      && (r != [] ==> r[|r| - 1].endPage == Some(|texts|))
  {
    TaggedOrdered(PageHeaders(texts));
  }

  /** The texts of consecutive page ranges join up. */
  lemma {:induction false} PagesTextSplit(texts: seq<string>, a: nat, b: nat, c: nat)
    requires 1 <= a <= b + 1 && b <= c <= |texts|
    ensures PagesText(texts, a, b) + PagesText(texts, b + 1, c) == PagesText(texts, a, c)
    decreases c
  {
    if c > b {
      PagesTextSplit(texts, a, b, c - 1);
    }
  }

  /** The section texts written out one after the other. */
  function RawTexts(sections: seq<Section>): string {
    if sections == [] then "" else sections[0].rawText + RawTexts(sections[1..])
  }

  /** Nothing is lost or duplicated: the sections from `k` on hold, in
      order, the text of every page from the `k`-th header's page to the
      last page. Pages before the first header belong to no section. */
  lemma {:induction false} SectionsCover(texts: seq<string>, heads: seq<seq<Header>>, k: nat)
    requires |heads| == |texts| && k < |Tagged(heads)|
    ensures RawTexts(PagedSections(texts, heads)[k..]) == PagesText(texts, Tagged(heads)[k].0, |texts|)
    decreases |Tagged(heads)| - k
  {
    var r := PagedSections(texts, heads);
    var tags := Tagged(heads);
    assert r[k..][1..] == r[k + 1..];
    if k + 1 < |tags| {
      SectionsCover(texts, heads, k + 1);
      TaggedOrdered(heads);
      PagesTextSplit(texts, tags[k].0, tags[k + 1].0 - 1, |texts|);
    } else {
      assert r[k + 1..] == [];
    }
  }

  lemma PdfSectionsCover(texts: seq<string>)
    ensures var r := PdfSections(texts);
      r != [] ==> RawTexts(r) == PagesText(texts, r[0].startPage.value, |texts|)
  {
    var heads := PageHeaders(texts);
    if Tagged(heads) != [] {
      SectionsCover(texts, heads, 0);
      assert PagedSections(texts, heads)[0..] == PagedSections(texts, heads);
    }
  }

  // ---------------------------------------------------------------------
  // Two headers on one page

  /** A numbered header is a header, whatever else it matches. */
  lemma NumberedIsHeader(line: string)
    requires HeaderNumber(line).Some?
    ensures LineHeader(line).Some?
  {
    assert PatternMatches(Patterns[0], line);
  }

  /** A header line adds one header. */
  lemma HeaderLineCounts(lines: seq<string>, l: string)
    requires Strip(l) != [] && LineHeader(Strip(l)).Some?
    ensures |HeadersOf(lines + [l])| == |HeadersOf(lines)| + 1
  {
    assert (lines + [l])[..|lines|] == lines;
    assert (lines + [l])[|lines|] == l;
  }

  /** A page holding just two numbered header lines has two headers. */
  lemma TwoHeaderPage(a: string, b: string)
    requires '\n' !in a && '\n' !in b && IsStripped(a) && IsStripped(b)
    requires HeaderNumber(a).Some? && HeaderNumber(b).Some?
    ensures |Headers(a + "\n" + b)| == 2
  {
    SplitOnTwo(a, b, '\n');
    StripStripped(a);
    StripStripped(b);
    NumberedIsHeader(a);
    NumberedIsHeader(b);
    HeaderLineCounts([], a);
    assert [] + [a] == [a];
    HeaderLineCounts([a], b);
    assert [a] + [b] == [a, b];
  }

  /** When the first page has two headers, the first section is closed on
      page 0, before the page it starts on. */
  lemma FirstPageTwoHeaders(texts: seq<string>, heads: seq<seq<Header>>)
    requires |heads| == |texts| >= 1 && |heads[0]| >= 2
    ensures var r := PagedSections(texts, heads);
      |r| >= 2 && r[0].startPage == Some(1) && r[0].endPage == Some(0)
  {
    PageTagsAt(heads, 0);
    assert heads[..0] == [];
    assert Tagged(heads[..0]) == [];
    var tags := Tagged(heads);
    assert tags[0] == (1, heads[0][0]) && tags[1] == (1, heads[0][1]);
    assert EndPage(heads, 0) == 0;
    assert PagedSections(texts, heads)[0] == PdfSection(texts, heads, 0);
  }

  lemma SamePageInverted(t: string, rest: seq<string>)
    requires |Headers(t)| >= 2
    ensures var r := PdfSections([t] + rest);
      |r| >= 2 && r[0].startPage == Some(1) && r[0].endPage == Some(0)
  {
    var texts := [t] + rest;
    PageHeadersAt(texts, 0);
    FirstPageTwoHeaders(texts, PageHeaders(texts));
  }

  /** The page "1 INTRODUCTION", "2 BACKGROUND" gives a first section that
      ends on the page before it starts. */
  lemma SamePageExample()
    ensures var r := PdfSections(["1 INTRODUCTION" + "\n" + "2 BACKGROUND"]);
      |r| >= 2 && r[0].startPage == Some(1) && r[0].endPage == Some(0)
  {
    ExampleHeaders();
    SamePageInverted("1 INTRODUCTION" + "\n" + "2 BACKGROUND", []);
    assert ["1 INTRODUCTION" + "\n" + "2 BACKGROUND"] + [] == ["1 INTRODUCTION" + "\n" + "2 BACKGROUND"];
  }

  lemma ExampleHeaders()
    ensures |Headers("1 INTRODUCTION" + "\n" + "2 BACKGROUND")| == 2
  {
    IntroductionHeader();
    BackgroundHeader();
    ExampleLines();
    TwoHeaderPage("1 INTRODUCTION", "2 BACKGROUND");
  }

  lemma ExampleLines()
    ensures '\n' !in "1 INTRODUCTION" && '\n' !in "2 BACKGROUND"
    ensures IsStripped("1 INTRODUCTION") && IsStripped("2 BACKGROUND")
  {
  }

  /** The evidently intended end page: a section that the next header
      closes on its own page ends on that page. */
  function IntendedPdfSections(texts: seq<string>): (r: seq<Section>)
    ensures |r| == |PdfSections(texts)|
    ensures forall k :: 0 <= k < |r| ==>
      r[k].startPage.Some? && r[k].endPage.Some? && r[k].startPage.value <= r[k].endPage.value
    ensures forall k :: 0 <= k < |r| ==>
      var w := PdfSections(texts)[k];
      r[k] == if w.startPage.value <= w.endPage.value then w else w.(endPage := w.startPage)
  {
    var w := PdfSections(texts);
    seq(|w|, k requires 0 <= k < |w| =>
      if w[k].startPage.value <= w[k].endPage.value then w[k] else w[k].(endPage := w[k].startPage))
  }

  // ---------------------------------------------------------------------
  // `_extract_text_and_sections`

  /** Section `k` while page `i + 1` is read: open, with the text of its
      pages so far. */
  function OpenSection(texts: seq<string>, heads: seq<seq<Header>>, k: nat, i: nat): Section
    requires k < |Tagged(heads)| && i <= |texts|
  {
    var (s, h) := Tagged(heads)[k];
    Section(Some(k), h.sectionType, h.number, h.title, h.level, Some(s), None, PagesText(texts, s, i))
  }

  /** The loop's state once the first `m` headers are read and the pages
      before page `i + 1` are accumulated: the first `m - 1` sections are
      closed and the `m`-th is open. */
  ghost predicate Paging(texts: seq<string>, heads: seq<seq<Header>>, i: nat, m: nat,
                         sections: seq<Section>, current: Option<Section>, index: int) {
    |heads| == |texts| && i <= |texts| && m <= |Tagged(heads)|
    && (m == 0 ==> current.None? && sections == [] && index == 0)
    && (m > 0 ==>
          Tagged(heads)[m - 1].0 <= i + 1
          && sections == PagedSections(texts, heads)[..m - 1] && index == m - 1
          && current == Some(OpenSection(texts, heads, m - 1, i)))
  }

  /** A header of page `i + 1` closes the open section on the page before
      and opens its own. */
  method OpenHeader(ghost texts: seq<string>, ghost heads: seq<seq<Header>>, i: nat, ghost m: nat, h: Header,
                    sections: seq<Section>, current: Option<Section>, index: int)
    returns (sections': seq<Section>, current': Option<Section>, index': int)
    requires i < |texts| && m < |Tagged(heads)| && Tagged(heads)[m] == (i + 1, h)
    requires Paging(texts, heads, i, m, sections, current, index)
    ensures Paging(texts, heads, i, m + 1, sections', current', index')
  {
    sections', index' := sections, index;
    if current.Some? {
      sections' := sections + [current.value.(endPage := Some(i))];
      index' := index + 1;
      ghost var r := PagedSections(texts, heads);
      assert current.value.(endPage := Some(i)) == r[m - 1];
      assert r[..m] == r[..m - 1] + [r[m - 1]];
    }
    current' := Some(Section(Some(index'), h.sectionType, h.number, h.title, h.level, Some(i + 1), None, ""));
  }

  /** After its headers, the whole text of page `i + 1` goes to the open
      section. */
  lemma Accumulate(texts: seq<string>, heads: seq<seq<Header>>, i: nat, m: nat, sections: seq<Section>,
                   current: Option<Section>, index: int)
    requires i < |texts|
    requires Paging(texts, heads, i, m, sections, current, index)
    ensures var current' := if current.Some? then Some(current.value.(rawText := current.value.rawText + texts[i] + "\n")) else None;
      Paging(texts, heads, i + 1, m, sections, current', index)
  {
    if current.Some? {
      var s := Tagged(heads)[m - 1].0;
      assert PagesText(texts, s, i + 1) == PagesText(texts, s, i) + texts[i] + "\n";
    }
  }

  /** The headers of page `i + 1`, one after the other. */
  method OpenHeaders(ghost texts: seq<string>, ghost heads: seq<seq<Header>>, i: nat, ghost m0: nat,
                     detected: seq<Header>, sections: seq<Section>, current: Option<Section>, index: int)
    returns (sections': seq<Section>, current': Option<Section>, index': int)
    requires i < |texts| && m0 + |detected| <= |Tagged(heads)|
    requires forall j :: 0 <= j < |detected| ==> Tagged(heads)[m0 + j] == (i + 1, detected[j])
    requires Paging(texts, heads, i, m0, sections, current, index)
    ensures Paging(texts, heads, i, m0 + |detected|, sections', current', index')
  {
    sections', current', index' := sections, current, index;
    var j := 0;
    while j < |detected|
      invariant 0 <= j <= |detected|
      invariant Paging(texts, heads, i, m0 + j, sections', current', index')
    {
      sections', current', index' := OpenHeader(texts, heads, i, m0 + j, detected[j], sections', current', index');
      j := j + 1;
    }
  }

  /** One page, whose headers are detected: its headers in order, then
      its text. */
  method ReadPage(ghost texts: seq<string>, ghost heads: seq<seq<Header>>, i: nat, text: string,
                  detected: seq<Header>, sections: seq<Section>, current: Option<Section>, index: int)
    returns (sections': seq<Section>, current': Option<Section>, index': int)
    requires i < |texts| == |heads|
    requires Paging(texts, heads, i, |Tagged(heads[..i])|, sections, current, index)
    requires texts[i] == text && heads[i] == detected
    ensures Paging(texts, heads, i + 1, |Tagged(heads[..i + 1])|, sections', current', index')
  {
    ghost var m0 := |Tagged(heads[..i])|;
    PageTagsAt(heads, i);
    sections', current', index' := OpenHeaders(texts, heads, i, m0, detected, sections, current, index);
    Accumulate(texts, heads, i, m0 + |detected|, sections', current', index');
    if current'.Some? {
      current' := Some(current'.value.(rawText := current'.value.rawText + text + "\n"));
    }
  }

  /** Reading page `i + 1`: its text (empty when none is extracted), its
      headers, then the page as `ReadPage` does. */
  method NextPage(ghost texts: seq<string>, ghost heads: seq<seq<Header>>, i: nat, page: Option<string>,
                  sections: seq<Section>, current: Option<Section>, index: int)
    returns (text: string, sections': seq<Section>, current': Option<Section>, index': int)
    requires i < |texts| && heads == PageHeaders(texts) && texts[i] == PageText(page)
    requires Paging(texts, heads, i, |Tagged(heads[..i])|, sections, current, index)
    ensures text == texts[i]
    ensures Paging(texts, heads, i + 1, |Tagged(heads[..i + 1])|, sections', current', index')
  {
    text := PageText(page);
    var detected := DetectSections(text);
    PageHeadersAt(texts, i);
    sections', current', index' := ReadPage(texts, heads, i, text, detected, sections, current, index);
  }

  /** After the last page the open section is closed on it. */
  lemma Close(texts: seq<string>, heads: seq<seq<Header>>, sections: seq<Section>,
              current: Option<Section>, index: int)
    requires Paging(texts, heads, |texts|, |Tagged(heads)|, sections, current, index)
    ensures sections + (if current.Some? then [current.value.(endPage := Some(|texts|))] else [])
            == PagedSections(texts, heads)
  {
    var r := PagedSections(texts, heads);
    if current.Some? {
      assert r == r[..|r| - 1] + [r[|r| - 1]];
    }
  }

  /** `_extract_text_and_sections`, with the pages' extracted texts given:
      the page texts, and the sections of the reference definition. */
  method ExtractTextAndSections(pages: seq<Option<string>>) returns (texts: seq<string>, sections: seq<Section>)
    ensures texts == PageTexts(pages)
    ensures sections == PdfSections(texts)
  {
    ghost var all := PageTexts(pages);
    ghost var heads := PageHeaders(all);
    texts := [];
    sections := [];
    var current: Option<Section> := None;
    var sectionIndex := 0;
    var i := 0;
    while i < |pages|
      invariant 0 <= i <= |pages|
      invariant texts == all[..i]
      invariant Paging(all, heads, i, |Tagged(heads[..i])|, sections, current, sectionIndex)
    {
      var text;
      text, sections, current, sectionIndex := NextPage(all, heads, i, pages[i], sections, current, sectionIndex);
      PrefixSnoc(all, i);
      texts := texts + [text];
      i := i + 1;
    }
    assert all[..i] == all;
    assert heads[..i] == heads;
    Close(all, heads, sections, current, sectionIndex);
    if current.Some? {
      sections := sections + [current.value.(endPage := Some(|texts|))];
    }
  }
}
