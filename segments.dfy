/** How a stream of text lines becomes sections when some lines are
    headers: each header opens a section titled by it, and the lines after
    it, up to the next header, make up the section's text, one line and a
    newline at a time. Lines before the first header belong to no section.
    The Word parser splits its paragraphs this way twice, once by heading
    style and once by the numbered-header pattern. */
module Segments {
  import opened Wrappers
  import opened Documents

  /** What a header line contributes to its section besides its text. */
  datatype Head = Head(sectionType: string, sectionNumber: Option<string>, level: int)

  /** A line of text, with its header reading when it is a header. */
  datatype Line = Line(text: string, head: Option<Head>)

  /** The section that header line `l` opens, as the `index`-th section,
      before any text has been added to it. */
  function Opened(index: nat, l: Line): Section
    requires l.head.Some?
  {
    Section(Some(index), l.head.value.sectionType, l.head.value.sectionNumber, l.text,
            l.head.value.level, None, None, "")
  }

  /** The text of the lines from `j` up to the next header, each followed
      by a newline. */
  function RawFrom(lines: seq<Line>, j: nat): string
    requires j <= |lines|
    decreases |lines| - j
  {
    if j == |lines| || lines[j].head.Some? then ""
    else lines[j].text + "\n" + RawFrom(lines, j + 1)
  }

  /** The sections of the lines from `j` on, numbered from `k`: one per
      header line, holding the text up to the next header. */
  function SectionsFrom(lines: seq<Line>, j: nat, k: nat): seq<Section>
    requires j <= |lines|
    decreases |lines| - j
  {
    if j == |lines| then []
    else if lines[j].head.Some? then
      [Opened(k, lines[j]).(rawText := RawFrom(lines, j + 1))] + SectionsFrom(lines, j + 1, k + 1)
    else SectionsFrom(lines, j + 1, k)
  }

  /** The sections of a whole stream of lines. */
  function Sections(lines: seq<Line>): seq<Section> {
    SectionsFrom(lines, 0, 0)
  }

  /** Number of header lines from `j` on. */
  function HeadCount(lines: seq<Line>, j: nat): nat
    requires j <= |lines|
    decreases |lines| - j
  {
    if j == |lines| then 0 else (if lines[j].head.Some? then 1 else 0) + HeadCount(lines, j + 1)
  }

  /** Every line of the stream from `j` on, each followed by a newline. */
  function AllText(lines: seq<Line>, j: nat): string
    requires j <= |lines|
    decreases |lines| - j
  {
    if j == |lines| then "" else lines[j].text + "\n" + AllText(lines, j + 1)
  }

  /** The sections written back out: each title on its own line followed
      by the section's text. */
  function SectionsText(sections: seq<Section>): string {
    if sections == [] then "" else sections[0].title + "\n" + sections[0].rawText + SectionsText(sections[1..])
  }

  // ---------------------------------------------------------------------
  // What the reference definition promises

  /** One section per header line. */
  lemma {:induction false} SectionsCount(lines: seq<Line>, j: nat, k: nat)
    requires j <= |lines|
    ensures |SectionsFrom(lines, j, k)| == HeadCount(lines, j)
    decreases |lines| - j
  {
    if j < |lines| {
      SectionsCount(lines, j + 1, if lines[j].head.Some? then k + 1 else k);
    }
  }

  /** Sections are numbered consecutively from `k`. */
  lemma {:induction false} SectionsIndexed(lines: seq<Line>, j: nat, k: nat)
    requires j <= |lines|
    ensures forall q :: 0 <= q < |SectionsFrom(lines, j, k)| ==> SectionsFrom(lines, j, k)[q].index == Some(k + q)
    decreases |lines| - j
  {
    if j < |lines| {
      if lines[j].head.Some? {
        SectionsIndexed(lines, j + 1, k + 1);
      } else {
        SectionsIndexed(lines, j + 1, k);
      }
    }
  }

  /** Position of the `q`-th header line from `j` on. */
  function HeadPos(lines: seq<Line>, j: nat, q: nat): (p: nat)
    requires j <= |lines| && q < HeadCount(lines, j)
    ensures j <= p < |lines| && lines[p].head.Some?
    decreases |lines| - j
  {
    if lines[j].head.Some? then (if q == 0 then j else HeadPos(lines, j + 1, q - 1))
    else HeadPos(lines, j + 1, q)
  }

  /** The `q`-th section is opened by the `q`-th header line, with that
      line's title, type, number and level, and holds the text that
      follows the header. */
  lemma {:induction false} SectionsFromHeads(lines: seq<Line>, j: nat, k: nat, q: nat)
    requires j <= |lines| && q < HeadCount(lines, j)
    ensures q < |SectionsFrom(lines, j, k)|
    ensures var p := HeadPos(lines, j, q);
      SectionsFrom(lines, j, k)[q] == Opened(k + q, lines[p]).(rawText := RawFrom(lines, p + 1))
    decreases |lines| - j
  {
    SectionsCount(lines, j, k);
    if lines[j].head.Some? {
      if q > 0 {
        SectionsFromHeads(lines, j + 1, k + 1, q - 1);
      }
    } else {
      SectionsFromHeads(lines, j + 1, k, q);
    }
  }

  /** Nothing is lost or duplicated: the text before the first header,
      then the sections written back out, is the whole stream. */
  lemma {:induction false} SectionsCoverText(lines: seq<Line>, j: nat, k: nat)
    requires j <= |lines|
    ensures RawFrom(lines, j) + SectionsText(SectionsFrom(lines, j, k)) == AllText(lines, j)
    decreases |lines| - j
  {
    if j < |lines| {
      var l := lines[j];
      if l.head.Some? {
        SectionsCoverText(lines, j + 1, k + 1);
        var s := Opened(k, l).(rawText := RawFrom(lines, j + 1));
        var rest := SectionsFrom(lines, j + 1, k + 1);
        assert SectionsFrom(lines, j, k) == [s] + rest;
        assert ([s] + rest)[1..] == rest;
      } else {
        SectionsCoverText(lines, j + 1, k);
      }
    }
  }

  /** A stream without header lines has no sections. */
  lemma {:induction false} NoHeadsNoSections(lines: seq<Line>, j: nat, k: nat)
    requires j <= |lines|
    requires forall p :: j <= p < |lines| ==> lines[p].head.None?
    ensures SectionsFrom(lines, j, k) == []
    decreases |lines| - j
  {
    if j < |lines| {
      NoHeadsNoSections(lines, j + 1, k);
    }
  }

  /** A header followed by a plain line makes one section holding that
      line. */
  lemma HeadThenText(l0: Line, l1: Line)
    requires l0.head.Some? && l1.head.None?
    ensures Sections([l0, l1]) == [Opened(0, l0).(rawText := l1.text + "\n")]
  {
    var lines := [l0, l1];
    assert RawFrom(lines, 2) == "";
    assert RawFrom(lines, 1) == l1.text + "\n" + "";
    assert l1.text + "\n" + "" == l1.text + "\n";
    assert SectionsFrom(lines, 2, 1) == [];
    assert SectionsFrom(lines, 1, 1) == [];
    assert SectionsFrom(lines, 0, 0) == [Opened(0, l0).(rawText := RawFrom(lines, 1))] + [];
  }

  /** A plain line followed by a header makes one empty section. */
  lemma TextThenHead(l0: Line, l1: Line)
    requires l0.head.None? && l1.head.Some?
    ensures Sections([l0, l1]) == [Opened(0, l1)]
  {
    var lines := [l0, l1];
    assert Opened(0, l1).(rawText := "") == Opened(0, l1);
    assert SectionsFrom(lines, 1, 0) == [Opened(0, l1)];
  }

  // ---------------------------------------------------------------------
  // The scanning loop both Word-parser passes run

  /** The open section, completed with the text still to come. */
  function Finish(current: Option<Section>, rest: string): seq<Section> {
    if current.Some? then [current.value.(rawText := current.value.rawText + rest)] else []
  }

  /** Number of the next section to open. */
  function NextIndex(closed: seq<Section>, current: Option<Section>): nat {
    |closed| + if current.Some? then 1 else 0
  }

  /** After the lines before `i` are scanned: the sections closed so far,
      the open one completed with the text up to the next header, and the
      sections of the rest are together the sections of the whole stream;
      `index` is the loop's section counter. */
  ghost predicate Scanning(lines: seq<Line>, i: nat, closed: seq<Section>, current: Option<Section>, index: int) {
    i <= |lines|
    && index == |closed|
    && (current.Some? ==> current.value.index == Some(index))
    && (current.None? ==> closed == [])
    && Sections(lines) == closed + Finish(current, RawFrom(lines, i)) + SectionsFrom(lines, i, NextIndex(closed, current))
  }

  lemma ScanStart(lines: seq<Line>)
    ensures Scanning(lines, 0, [], None, 0)
  {
  }

  /** A header line closes the open section and opens its own. */
  lemma ScanHead(lines: seq<Line>, i: nat, closed: seq<Section>, current: Option<Section>, index: int)
    requires Scanning(lines, i, closed, current, index) && i < |lines| && lines[i].head.Some?
    ensures var closed' := closed + (if current.Some? then [current.value] else []);
      var index' := if current.Some? then index + 1 else index;
      index' >= 0 && Scanning(lines, i + 1, closed', Some(Opened(index', lines[i])), index')
  {
    var closed' := closed + (if current.Some? then [current.value] else []);
    var index' := if current.Some? then index + 1 else index;
    var sec := Opened(index', lines[i]);
    if current.Some? {
      assert current.value.(rawText := current.value.rawText + "") == current.value;
    }
    assert "" + RawFrom(lines, i + 1) == RawFrom(lines, i + 1);
    assert Finish(current, RawFrom(lines, i)) == (if current.Some? then [current.value] else []);
    assert Finish(Some(sec), RawFrom(lines, i + 1)) == [sec.(rawText := RawFrom(lines, i + 1))];
    assert closed + Finish(current, RawFrom(lines, i)) == closed';
  }

  /** Any other line is added to the open section's text, if there is
      one. */
  lemma ScanText(lines: seq<Line>, i: nat, closed: seq<Section>, current: Option<Section>, index: int)
    requires Scanning(lines, i, closed, current, index) && i < |lines| && lines[i].head.None?
    ensures var current' := if current.Some? then Some(current.value.(rawText := current.value.rawText + lines[i].text + "\n")) else None;
      Scanning(lines, i + 1, closed, current', index)
  {
    if current.Some? {
      var c := current.value;
      var t := lines[i].text + "\n";
      assert RawFrom(lines, i) == t + RawFrom(lines, i + 1);
      assert c.rawText + (t + RawFrom(lines, i + 1)) == c.rawText + t + RawFrom(lines, i + 1);
      assert c.rawText + t == c.rawText + lines[i].text + "\n";
      assert Finish(current, RawFrom(lines, i)) == Finish(Some(c.(rawText := c.rawText + t)), RawFrom(lines, i + 1));
    }
    assert SectionsFrom(lines, i, NextIndex(closed, current)) == SectionsFrom(lines, i + 1, NextIndex(closed, current));
  }

  /** At the end of the stream the closed sections and the open one are
      all the sections. */
  lemma ScanEnd(lines: seq<Line>, closed: seq<Section>, current: Option<Section>, index: int)
    requires Scanning(lines, |lines|, closed, current, index)
    ensures Sections(lines) == closed + (if current.Some? then [current.value] else [])
  {
    if current.Some? {
      assert current.value.(rawText := current.value.rawText + "") == current.value;
    }
  }
}
