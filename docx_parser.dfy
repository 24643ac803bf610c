/** The Word parser's section detection: paragraphs are stripped and empty
    ones skipped; a paragraph whose style name starts with "Heading" opens
    a section, and the following paragraphs are its text. A document
    without any closed heading section falls back to the numbered-header
    pattern over the paragraph texts. */
module DocxParser {
  import opened Wrappers
  import opened Text
  import opened Documents
  import opened Titles
  import opened Segments

  /** A paragraph of the document: its text and, when it has a style, the
      style's name. */
  datatype Paragraph = Paragraph(text: string, style: Option<string>)

  predicate IsHeadingStyle(style: Option<string>) {
    style.Some? && StartsWith(style.value, "Heading")
  }

  /** The line a paragraph contributes, if its stripped text is not empty,
      read as a header when its style is a heading style. */
  function DocLine(p: Paragraph): Option<Line> {
    var t := Strip(p.text);
    if t == [] then None
    else if IsHeadingStyle(p.style) then
      Some(Line(t, Some(Head(ClassifySectionFromTitle(t), ExtractSectionNumber(t), HeadingLevel(p.style.value)))))
    else Some(Line(t, None))
  }

  /** The lines of a document's paragraphs, in order. */
  function DocLines(doc: seq<Paragraph>): seq<Line>
    decreases |doc|
  {
    if doc == [] then []
    else DocLines(doc[..|doc| - 1]) + match DocLine(doc[|doc| - 1]) { case Some(l) => [l] case None => [] }
  }

  function Texts(lines: seq<Line>): (r: seq<string>)
    ensures |r| == |lines| && forall j :: 0 <= j < |lines| ==> r[j] == lines[j].text
  {
    seq(|lines|, j requires 0 <= j < |lines| => lines[j].text)
  }

  lemma TextsSnoc(lines: seq<Line>, l: Line)
    ensures Texts(lines + [l]) == Texts(lines) + [l.text]
  {
  }

  /** The line a paragraph text is for the numbered-header pattern. */
  function PatternLine(para: string): Line {
    match HeaderNumber(para)
    case Some(n) => Line(para, Some(Head(ClassifySectionFromTitle(para), Some(n), CountChar(para, '.'))))
    case None => Line(para, None)
  }

  function PatternLines(paragraphs: seq<string>): (r: seq<Line>)
    ensures |r| == |paragraphs| && forall j :: 0 <= j < |r| ==> r[j] == PatternLine(paragraphs[j])
  {
    seq(|paragraphs|, j requires 0 <= j < |paragraphs| => PatternLine(paragraphs[j]))
  }

  // ---------------------------------------------------------------------
  // The pattern fallback

  /** `_detect_sections_from_text`: every paragraph matching the
      numbered-header pattern opens a section; the others are added to the
      open one's text. */
  method DetectSectionsFromText(paragraphs: seq<string>) returns (sections: seq<Section>)
    ensures sections == Sections(PatternLines(paragraphs))
  {
    ghost var lines := PatternLines(paragraphs);
    sections := [];
    var sectionIndex := 0;
    var current: Option<Section> := None;
    ScanStart(lines);
    var i := 0;
    while i < |paragraphs|
      invariant 0 <= i <= |paragraphs|
      invariant Scanning(lines, i, sections, current, sectionIndex)
    {
      sections, current, sectionIndex := DetectStep(lines, i, paragraphs[i], sections, current, sectionIndex);
      i := i + 1;
    }
    ScanEnd(lines, sections, current, sectionIndex);
    if current.Some? {
      sections := sections + [current.value];
    }
  }

  /** One paragraph of the pattern fallback. */
  method DetectStep(ghost lines: seq<Line>, ghost i: nat, para: string, sections: seq<Section>, current: Option<Section>, sectionIndex: int)
    returns (sections': seq<Section>, current': Option<Section>, sectionIndex': int)
    requires i < |lines| && lines[i] == PatternLine(para)
    requires Scanning(lines, i, sections, current, sectionIndex)
    ensures Scanning(lines, i + 1, sections', current', sectionIndex')
  {
    sections', current', sectionIndex' := sections, current, sectionIndex;
    var m := HeaderNumber(para);
    if m.Some? {
      ScanHead(lines, i, sections, current, sectionIndex);
      if current.Some? {
        sections' := sections + [current.value];
        sectionIndex' := sectionIndex + 1;
      }
      current' := Some(Section(Some(sectionIndex'), ClassifySectionFromTitle(para), m, para,
                               CountChar(para, '.'), None, None, ""));
    } else {
      ScanText(lines, i, sections, current, sectionIndex);
      if current.Some? {
        current' := Some(current.value.(rawText := current.value.rawText + para + "\n"));
      }
    }
  }

  // ---------------------------------------------------------------------
  // Heading styles

  lemma DocLinesNext(doc: seq<Paragraph>, i: nat)
    requires i < |doc|
    ensures DocLines(doc[..i + 1]) == DocLines(doc[..i]) + match DocLine(doc[i]) { case Some(l) => [l] case None => [] }
  {
    assert doc[..i + 1][..i] == doc[..i];
  }

  lemma {:induction false} DocLinesPrefix(doc: seq<Paragraph>, i: nat)
    requires i <= |doc|
    ensures DocLines(doc[..i]) <= DocLines(doc)
    decreases |doc| - i
  {
    if i < |doc| {
      DocLinesNext(doc, i);
      DocLinesPrefix(doc, i + 1);
    } else {
      assert doc[..i] == doc;
    }
  }

  /** Paragraph `i`, when kept, is the line right after those of the
      paragraphs before it. */
  lemma DocLineAt(doc: seq<Paragraph>, i: nat)
    requires i < |doc| && DocLine(doc[i]).Some?
    ensures |DocLines(doc[..i])| < |DocLines(doc)|
    ensures DocLines(doc)[|DocLines(doc[..i])|] == DocLine(doc[i]).value
  {
    DocLinesNext(doc, i);
    DocLinesPrefix(doc, i + 1);
    var n := |DocLines(doc[..i])|;
    assert DocLines(doc[..i + 1])[n] == DocLine(doc[i]).value;
  }

  /** After the paragraphs before `i`: the kept texts so far, and the
      section scan at the matching line. */
  ghost predicate Reading(doc: seq<Paragraph>, i: nat, paragraphs: seq<string>, sections: seq<Section>,
                          current: Option<Section>, sectionIndex: int)
  {
    i <= |doc|
    && paragraphs == Texts(DocLines(doc[..i]))
    && Scanning(DocLines(doc), |DocLines(doc[..i])|, sections, current, sectionIndex)
  }

  /** One paragraph of the heading loop. */
  method ReadParagraph(ghost doc: seq<Paragraph>, ghost i: nat, para: Paragraph, paragraphs: seq<string>,
                       sections: seq<Section>, current: Option<Section>, sectionIndex: int)
    returns (paragraphs': seq<string>, sections': seq<Section>, current': Option<Section>, sectionIndex': int)
    requires i < |doc| && doc[i] == para
    requires Reading(doc, i, paragraphs, sections, current, sectionIndex)
    ensures Reading(doc, i + 1, paragraphs', sections', current', sectionIndex')
  {
    ghost var lines := DocLines(doc);
    ghost var j := |DocLines(doc[..i])|;
    DocLinesNext(doc, i);
    paragraphs', sections', current', sectionIndex' := paragraphs, sections, current, sectionIndex;
    var text := Strip(para.text);
    if text != [] {
      DocLineAt(doc, i);
      TextsSnoc(DocLines(doc[..i]), DocLine(doc[i]).value);
      paragraphs' := paragraphs + [text];
      if para.style.Some? && StartsWith(para.style.value, "Heading") {
        var level := HeadingLevel(para.style.value);
        var sectionType := ClassifySectionFromTitle(text);
        ScanHead(lines, j, sections, current, sectionIndex);
        if current.Some? {
          sections' := sections + [current.value];
          sectionIndex' := sectionIndex + 1;
        }
        current' := Some(Section(Some(sectionIndex'), sectionType, ExtractSectionNumber(text), text, level, None, None, ""));
      } else {
        ScanText(lines, j, sections, current, sectionIndex);
        if current.Some? {
          current' := Some(current.value.(rawText := current.value.rawText + text + "\n"));
        }
      }
    }
  }

  /** `_extract_text_and_sections`: the kept paragraph texts, and the
      sections. With two or more heading paragraphs the sections are
      exactly those the headings open. Otherwise the numbered-header
      pattern runs over the texts, and a single heading section is
      appended unless it equals one of the detected sections. */
  method ExtractTextAndSections(doc: seq<Paragraph>) returns (paragraphs: seq<string>, sections: seq<Section>)
    ensures paragraphs == Texts(DocLines(doc))
    ensures var heads := Sections(DocLines(doc));
      var detected := Sections(PatternLines(paragraphs));
      && (|heads| >= 2 ==> sections == heads)
      && (heads == [] ==> sections == detected)
      && (|heads| == 1 ==> sections == if heads[0] in detected then detected else detected + heads)
  {
    ghost var lines := DocLines(doc);
    paragraphs := [];
    sections := [];
    var current: Option<Section> := None;
    var sectionIndex := 0;
    ScanStart(lines);
    var i := 0;
    while i < |doc|
      invariant 0 <= i <= |doc|
      invariant Reading(doc, i, paragraphs, sections, current, sectionIndex)
    {
      paragraphs, sections, current, sectionIndex := ReadParagraph(doc, i, doc[i], paragraphs, sections, current, sectionIndex);
      i := i + 1;
    }
    ReadingEnd(doc, paragraphs, sections, current, sectionIndex);
    if sections == [] {
      sections := DetectSectionsFromText(paragraphs);
    }
    if current.Some? && current.value !in sections {
      sections := sections + [current.value];
    }
  }

  /** Once every paragraph is read: the texts are all kept paragraphs, and
      the heading sections are the closed ones and the one still open,
      which differs from each closed one. */
  lemma ReadingEnd(doc: seq<Paragraph>, paragraphs: seq<string>, closed: seq<Section>,
                   current: Option<Section>, index: int)
    requires Reading(doc, |doc|, paragraphs, closed, current, index)
    ensures paragraphs == Texts(DocLines(doc))
    ensures Sections(DocLines(doc)) == closed + (if current.Some? then [current.value] else [])
    ensures current.None? ==> closed == []
    ensures closed != [] ==> current.Some? && current.value !in closed
  {
    var lines := DocLines(doc);
    assert doc[..|doc|] == doc;
    ScanEnd(lines, closed, current, index);
    SectionsIndexed(lines, 0, 0);
    if closed != [] {
      var heads := Sections(lines);
      forall q | 0 <= q < |closed|
        ensures closed[q] != current.value
      {
        assert closed[q] == heads[q];
      }
    }
  }

  // ---------------------------------------------------------------------
  // A document with exactly one heading

  /** With exactly one heading and a numbered header in the text, the
      result holds two sections numbered 0: the first detected one and the
      heading's. */
  lemma {:induction false} OneHeadingDuplicatesIndex(doc: seq<Paragraph>, paragraphs: seq<string>, sections: seq<Section>)
    requires paragraphs == Texts(DocLines(doc))
    requires |Sections(DocLines(doc))| == 1
    requires var detected := Sections(PatternLines(paragraphs));
      detected != [] && Sections(DocLines(doc))[0] !in detected
      && sections == detected + Sections(DocLines(doc))
    ensures |sections| >= 2 && sections[0].index == Some(0) && sections[|sections| - 1].index == Some(0)
  {
    SectionsIndexed(DocLines(doc), 0, 0);
    SectionsIndexed(PatternLines(paragraphs), 0, 0);
  }

  /** The documents that show it: a heading-styled title, then a
      paragraph that is a numbered header. */
  lemma OneHeadingCase(t: string, style: string, h: string)
    requires IsStripped(t) && t != [] && !IsDigit(t[0]) && IsHeadingStyle(Some(style))
    requires IsStripped(h) && HeaderNumber(h).Some?
    ensures var doc := [Paragraph(t, Some(style)), Paragraph(h, None)];
      var detected := Sections(PatternLines(Texts(DocLines(doc))));
      |Sections(DocLines(doc))| == 1 && detected != [] && Sections(DocLines(doc))[0] !in detected
  {
    HeadingThenText(t, style, h);
    TextThenHeader(t, h);
    var lines := DocLines([Paragraph(t, Some(style)), Paragraph(h, None)]);
    var detected := Sections(PatternLines([t, h]));
    assert Texts(lines) == [t, h];
    assert detected == [detected[0]];
    assert t[0] != h[0];
    assert Sections(lines)[0].title != detected[0].title;
  }

  /** A heading paragraph then a plain one: one section, titled by the
      heading. */
  lemma HeadingThenText(t: string, style: string, h: string)
    requires IsStripped(t) && t != [] && IsHeadingStyle(Some(style)) && IsStripped(h) && h != []
    ensures var lines := DocLines([Paragraph(t, Some(style)), Paragraph(h, None)]);
      Texts(lines) == [t, h] && |Sections(lines)| == 1 && Sections(lines)[0].title == t
  {
    var doc := [Paragraph(t, Some(style)), Paragraph(h, None)];
    StripStripped(t);
    StripStripped(h);
    var l0 := DocLine(doc[0]).value;
    var l1 := Line(h, None);
    assert DocLine(doc[1]) == Some(l1);
    DocLinesOfTwo(doc[0], doc[1]);
    HeadThenText(l0, l1);
    assert Texts([l0, l1]) == [t, h];
  }

  /** A plain paragraph then a numbered header: one detected section,
      titled by the header. */
  lemma TextThenHeader(t: string, h: string)
    requires t != [] && !IsDigit(t[0]) && HeaderNumber(h).Some?
    ensures |Sections(PatternLines([t, h]))| == 1 && Sections(PatternLines([t, h]))[0].title == h
  {
    assert PatternLine(t) == Line(t, None);
    PatternLinesOfTwo(t, h);
    TextThenHead(Line(t, None), PatternLine(h));
  }

  lemma PatternLinesOfTwo(a: string, b: string)
    ensures PatternLines([a, b]) == [PatternLine(a), PatternLine(b)]
  {
  }

  lemma DocLinesOfTwo(p0: Paragraph, p1: Paragraph)
    requires DocLine(p0).Some? && DocLine(p1).Some?
    ensures DocLines([p0, p1]) == [DocLine(p0).value, DocLine(p1).value]
  {
    var doc := [p0, p1];
    assert doc[..1] == [p0];
    assert [p0][..0] == [];
    assert DocLines([p0]) == [DocLine(p0).value];
    assert doc[..|doc| - 1] == [p0];
  }

  /** One such document: "Title" in style "Heading 1", then
      "1 INTRODUCTION". */
  lemma OneHeadingExample()
    ensures var doc := [Paragraph("Title", Some("Heading 1")), Paragraph("1 INTRODUCTION", None)];
      var detected := Sections(PatternLines(Texts(DocLines(doc))));
      |Sections(DocLines(doc))| == 1 && detected != [] && Sections(DocLines(doc))[0] !in detected
  {
    assert StartsWith("Heading 1", "Heading");
    IntroductionHeader();
    OneHeadingCase("Title", "Heading 1", "1 INTRODUCTION");
  }

  /** The evidently intended behaviour: the pattern fallback only for a
      document without any heading paragraph. */
  function IntendedSections(doc: seq<Paragraph>): (r: seq<Section>)
    ensures forall q :: 0 <= q < |r| ==> r[q].index == Some(q)
  {
    var heads := Sections(DocLines(doc));
    SectionsIndexed(DocLines(doc), 0, 0);
    SectionsIndexed(PatternLines(Texts(DocLines(doc))), 0, 0);
    if heads == [] then Sections(PatternLines(Texts(DocLines(doc)))) else heads
  }
}
