/** Section titles as the Word parser reads them, and as the PDF parser
    reuses them: the section type a title names, the leading section number
    (`3.2.1`), the numbered-header pattern, and the heading level of a
    paragraph style (`Heading 2`), which needs Python's `int()`. */
module Titles {
  import opened Wrappers
  import opened Text
  import opened Keywords

  // ---------------------------------------------------------------------
  // Section type from a title

  /** The title keywords in the order they are checked, with the section
      type each selects. */
  const SectionTypeTable: seq<(string, seq<string>)> := [
    ("inclusion_criteria", ["inclusion"]),
    ("exclusion_criteria", ["exclusion"]),
    ("population", ["eligibility"]),
    ("objectives", ["objective"]),
    ("background", ["background", "introduction"]),
    ("study_design", ["design"]),
    ("treatment", ["treatment", "intervention"]),
    ("assessments", ["assessment", "procedure"]),
    ("safety", ["safety", "adverse"]),
    ("efficacy", ["efficacy", "endpoint"]),
    ("statistics", ["statistic"]),
    ("ethics", ["ethic"]),
    ("administration", ["admin"]),
    ("appendix", ["appendix"])]

  /** The section type of a title: that of the first keyword occurring in
      the lower-cased title, or "other". */
  function ClassifySectionFromTitle(title: string): (r: string)
    ensures r == "other" || r in Labels(SectionTypeTable)
  {
    FirstMatchIsLabel(Lower(title), SectionTypeTable);
    match FirstMatch(Lower(title), SectionTypeTable)
    case Some(t) => t
    case None => "other"
  }

  /** "other" exactly when no keyword occurs; otherwise the type of the
      first table row with a keyword in the title. */
  lemma ClassifyTitleFirstMatch(title: string, k: nat)
    requires k < |SectionTypeTable|
    ensures ClassifySectionFromTitle(title) == "other" <==> NoRowMatches(Lower(title), SectionTypeTable)
    ensures FirstRowMatching(Lower(title), SectionTypeTable, k) ==> ClassifySectionFromTitle(title) == SectionTypeTable[k].0
  {
    FirstMatchNone(Lower(title), SectionTypeTable);
    if FirstRowMatching(Lower(title), SectionTypeTable, k) {
      FirstMatchRow(Lower(title), SectionTypeTable, k);
    }
  }

  /** A title naming inclusion is an inclusion-criteria section even when
      it names exclusion too ("Inclusion/Exclusion Criteria"). */
  lemma InclusionBeforeExclusion(title: string, at: nat)
    requires OccursAt(Lower(title), "inclusion", at)
    ensures ClassifySectionFromTitle(title) == "inclusion_criteria"
  {
    TermSelectsRow(Lower(title), SectionTypeTable, 0, 0, at);
  }

  // ---------------------------------------------------------------------
  // Section numbers: `^(\d+(?:\.\d+)*)`

  /** A string of the form `\d+(\.\d+)*`: digits, with single dots between
      digits. */
  predicate DottedNumber(s: string) {
    |s| > 0 && IsDigit(s[0]) && IsDigit(s[|s| - 1])
    && forall i {:trigger s[i]} :: 0 <= i < |s| ==>
         IsDigit(s[i]) || (s[i] == '.' && 0 < i < |s| - 1 && IsDigit(s[i - 1]) && IsDigit(s[i + 1]))
  }

  /** The greedy `(?:\.\d+)*` from `i`: extends over a dot while a digit
      follows it. */
  function DottedEnd(t: string, i: nat): (e: nat)
    requires i <= |t|
    ensures i <= e <= |t|
    decreases |t| - i
  {
    if i + 1 < |t| && t[i] == '.' && IsDigit(t[i + 1]) then DottedEnd(t, DigitEnd(t, i + 1)) else i
  }

  /** Nothing the section-number pattern could still take follows `e`. */
  predicate NumberStops(t: string, e: nat)
    requires e <= |t|
  {
    e == |t| || (!IsDigit(t[e]) && !(t[e] == '.' && e + 1 < |t| && IsDigit(t[e + 1])))
  }

  lemma {:induction false} DottedEndShape(t: string, i: nat)
    requires 0 < i <= |t| && DottedNumber(t[..i]) && (i == |t| || !IsDigit(t[i]))
    ensures DottedNumber(t[..DottedEnd(t, i)]) && NumberStops(t, DottedEnd(t, i))
    decreases |t| - i
  {
    if i + 1 < |t| && t[i] == '.' && IsDigit(t[i + 1]) {
      var d := DigitEnd(t, i + 1);
      var u := t[..d];
      forall k | 0 <= k < d
        ensures IsDigit(u[k]) || (u[k] == '.' && 0 < k < d - 1 && IsDigit(u[k - 1]) && IsDigit(u[k + 1]))
      {
        if k < i {
          assert u[k] == t[..i][k];
          if !IsDigit(u[k]) {
            assert t[..i][k + 1] == u[k + 1];
            assert t[..i][k - 1] == u[k - 1];
          }
        } else if k == i {
          assert t[..i][i - 1] == u[i - 1];
        }
      }
      DottedEndShape(t, d);
    }
  }

  /** End of the section number at the start of `t`. */
  function NumberEnd(t: string): (e: nat)
    requires t != [] && IsDigit(t[0])
    ensures 0 < e <= |t| && DottedNumber(t[..e]) && NumberStops(t, e)
  {
    var d := DigitEnd(t, 0);
    assert DottedNumber(t[..d]) by {
      forall k | 0 <= k < d ensures IsDigit(t[..d][k]) { }
    }
    DottedEndShape(t, d);
    DottedEnd(t, d)
  }

  /** `_extract_section_number`: the leading dotted number of a title, when
      the title starts with a digit. */
  function ExtractSectionNumber(title: string): (r: Option<string>)
    ensures r.None? <==> (title == [] || !IsDigit(title[0]))
    ensures r.Some? ==> StartsWith(title, r.value) && DottedNumber(r.value) && NumberStops(title, |r.value|)
  {
    if title != [] && IsDigit(title[0]) then Some(title[..NumberEnd(title)]) else None
  }

  /** A section number cannot stop inside a longer one. */
  lemma NumberContinues(t: string, n: nat, e: nat)
    requires e < n <= |t| && DottedNumber(t[..n])
    ensures !NumberStops(t, e)
  {
    var u := t[..n];
    assert u[e] == t[e];
    if !IsDigit(t[e]) {
      assert u[e] == '.' && e < n - 1 && IsDigit(u[e + 1]);
      assert u[e + 1] == t[e + 1];
    }
  }

  /** Only one prefix is a section number that nothing can extend, so the
      extracted number is the longest one. */
  lemma SectionNumberUnique(title: string, n: nat)
    requires 0 < n <= |title| && DottedNumber(title[..n]) && NumberStops(title, n)
    ensures ExtractSectionNumber(title) == Some(title[..n])
  {
    assert title[..n][0] == title[0];
    var e := NumberEnd(title);
    if e < n {
      NumberContinues(title, n, e);
    }
    if n < e {
      NumberContinues(title, e, n);
    }
  }

  // ---------------------------------------------------------------------
  // The numbered-header pattern

  /** The header keywords of the pattern, lower-cased. An optional trailing
      `S` (`OBJECTIVES?`) never changes whether the pattern matches, so
      each such keyword appears without it. */
  const HeaderKeywords: seq<string> := [
    "introduction", "background", "objective", "study design", "population",
    "eligibility", "inclusion", "exclusion", "treatment", "procedure",
    "assessment", "safety", "efficacy", "statistical", "ethics",
    "administration", "reference", "appendix"]

  /** A header keyword starts at `i`, ignoring case. */
  predicate KeywordAt(t: string, i: nat) {
    exists k :: 0 <= k < |HeaderKeywords| && OccursAt(Lower(t), HeaderKeywords[k], i)
  }

  /** Where the keyword must start: after the number, `\s*`, an optional
      dot and `\s*` again. */
  function KeywordStart(t: string): nat
    requires t != [] && IsDigit(t[0])
  {
    var e1 := SkipSpace(t, NumberEnd(t));
    var e2 := if e1 < |t| && t[e1] == '.' then e1 + 1 else e1;
    SkipSpace(t, e2)
  }

  /** `re.match` of the numbered-header pattern, case-insensitive: the
      section number (group 1) when the text is a numbered header. The
      greedy number never has to give back characters, since a keyword
      cannot start with a digit or a dot. */
  function HeaderNumber(t: string): (r: Option<string>)
    ensures r.Some? ==> r == ExtractSectionNumber(t)
  {
    if t != [] && IsDigit(t[0]) && KeywordAt(t, KeywordStart(t)) then Some(t[..NumberEnd(t)]) else None
  }

  /** Every header keyword starts with a lower-case letter. */
  lemma KeywordsStartWithLetters()
    ensures forall k :: 0 <= k < |HeaderKeywords| ==> |HeaderKeywords[k]| > 0 && IsLower(HeaderKeywords[k][0])
  {
  }

  /** A dotted number, a space or a dot and a space, then a header keyword
      in any case, is a numbered header whose group 1 is that number
      ("5 INCLUSION CRITERIA", "5.1. Eligibility"). */
  lemma NumberedHeader(num: string, sep: string, rest: string, k: nat)
    requires DottedNumber(num) && (sep == " " || sep == ". ")
    requires k < |HeaderKeywords| && OccursAt(Lower(rest), HeaderKeywords[k], 0)
    ensures HeaderNumber(num + sep + rest) == Some(num)
  {
    KeywordsStartWithLetters();
    assert Lower(rest)[0] == HeaderKeywords[k][0];
    assert 'A' <= rest[0] <= 'Z' || 'a' <= rest[0] <= 'z';
    StartAfterSeparator(num, sep, rest);
    LowerAfter(num + sep, rest, HeaderKeywords[k]);
    var t := num + sep + rest;
    assert KeywordAt(t, KeywordStart(t));
    assert t[..NumberEnd(t)] == num;
  }

  /** "1 INTRODUCTION" is a numbered header with number "1". */
  lemma IntroductionHeader()
    ensures HeaderNumber("1 INTRODUCTION") == Some("1")
  {
    assert DottedNumber("1");
    assert Lower("INTRODUCTION")[..12] == HeaderKeywords[0];
    assert "1" + " " + "INTRODUCTION" == "1 INTRODUCTION";
    NumberedHeader("1", " ", "INTRODUCTION", 0);
  }

  /** "2 BACKGROUND" is a numbered header with number "2". */
  lemma BackgroundHeader()
    ensures HeaderNumber("2 BACKGROUND") == Some("2")
  {
    assert DottedNumber("2");
    assert Lower("BACKGROUND")[..10] == HeaderKeywords[1];
    assert "2" + " " + "BACKGROUND" == "2 BACKGROUND";
    NumberedHeader("2", " ", "BACKGROUND", 1);
  }

  /** After a number and its separator, a text starting with a letter is
      where the keyword must start. */
  lemma StartAfterSeparator(num: string, sep: string, rest: string)
    requires DottedNumber(num) && (sep == " " || sep == ". ")
    requires rest != [] && ('A' <= rest[0] <= 'Z' || 'a' <= rest[0] <= 'z')
    ensures var t := num + sep + rest;
      t != [] && IsDigit(t[0]) && NumberEnd(t) == |num| && KeywordStart(t) == |num| + |sep|
  {
    var t := num + sep + rest;
    var m := |num|;
    assert t[m + |sep|] == rest[0];
    assert t[..m] == num;
    SectionNumberUnique(t, m);
  }

  /** A word at the start of `rest`, ignoring case, is found after `pre`. */
  lemma LowerAfter(pre: string, rest: string, kw: string)
    requires OccursAt(Lower(rest), kw, 0)
    ensures OccursAt(Lower(pre + rest), kw, |pre|)
  {
    var t := pre + rest;
    forall j | 0 <= j < |kw|
      ensures Lower(t)[|pre| + j] == kw[j]
    {
      assert t[|pre| + j] == rest[j];
      assert Lower(rest)[..|kw|][j] == kw[j];
    }
  }

  // ---------------------------------------------------------------------
  // Heading styles and Python's int()

  /** Digits with single underscores between them, as `int()` accepts. */
  predicate DigitGroups(s: string) {
    |s| > 0 && IsDigit(s[0]) && IsDigit(s[|s| - 1])
    && forall i {:trigger s[i]} :: 0 <= i < |s| ==>
         IsDigit(s[i]) || (s[i] == '_' && 0 < i < |s| - 1 && IsDigit(s[i - 1]) && IsDigit(s[i + 1]))
  }

  function DropUnderscores(s: string): string {
    if s == [] then [] else (if s[0] == '_' then [] else [s[0]]) + DropUnderscores(s[1..])
  }

  /** Python `int(s)` for a string without surrounding whitespace: an
      optional sign and ASCII digit groups; anything else is a ValueError,
      modelled as None. */
  function ParseInt(s: string): Option<int> {
    if |s| > 0 && (s[0] == '+' || s[0] == '-') then
      if DigitGroups(s[1..]) then
        var v: int := DecimalValue(DropUnderscores(s[1..]));
        Some(if s[0] == '-' then -v else v)
      else None
    else if DigitGroups(s) then Some(DecimalValue(DropUnderscores(s)))
    else None
  }

  function DigitChar(d: nat): char
    requires d < 10
  {
    ('0' as int + d) as char
  }

  /** Python `str(n)` for a natural number. */
  function DecimalString(n: nat): (r: string)
    ensures |r| > 0 && forall i :: 0 <= i < |r| ==> IsDigit(r[i])
  {
    if n < 10 then [DigitChar(n)] else DecimalString(n / 10) + [DigitChar(n % 10)]
  }

  lemma {:induction false} DecimalStringValue(n: nat)
    ensures DecimalValue(DecimalString(n)) == n
  {
    var s := DecimalString(n);
    if n >= 10 {
      DecimalStringValue(n / 10);
      assert s[..|s| - 1] == DecimalString(n / 10);
    } else {
      assert s[..0] == [];
    }
  }

  lemma {:induction false} DropNoUnderscores(s: string)
    requires forall i :: 0 <= i < |s| ==> IsDigit(s[i])
    ensures DropUnderscores(s) == s
  {
    if s != [] {
      DropNoUnderscores(s[1..]);
    }
  }

  /** `int(str(n)) == n` and `int("-" + str(n)) == -n`. */
  lemma ParseIntDecimal(n: nat)
    ensures ParseInt(DecimalString(n)) == Some(n)
    ensures ParseInt("-" + DecimalString(n)) == Some(-(n as int))
  {
    var d := DecimalString(n);
    DropNoUnderscores(d);
    DecimalStringValue(n);
    assert ("-" + d)[1..] == d;
  }

  /** `_get_heading_level`: for a style naming "Heading", the integer left
      once every "Heading" is removed and the rest stripped, or 1 if that is
      not an integer; 0 for any other style. */
  function HeadingLevel(styleName: string): (level: int)
    ensures !Contains(styleName, "Heading") ==> level == 0
  {
    if Contains(styleName, "Heading") then
      match ParseInt(Strip(ReplaceAll(styleName, "Heading", "")))
      case Some(n) => n
      case None => 1
    else 0
  }

  lemma {:induction false} ReplaceAbsent(s: string, pat: string, rep: string)
    requires pat != [] && pat[0] !in s
    ensures ReplaceAll(s, pat, rep) == s
    decreases |s|
  {
    if |s| >= |pat| {
      assert s[0] != pat[0];
      assert s[..|pat|][0] == s[0];
      ReplaceAbsent(s[1..], pat, rep);
      assert s == [s[0]] + s[1..];
    }
  }

  lemma StripDigits(pre: string, d: string)
    requires pre == [] || pre == " "
    requires |d| > 0 && forall i :: 0 <= i < |d| ==> IsDigit(d[i])
    ensures Strip(pre + d) == d
  {
    var s := pre + d;
    assert !IsSpace(s[|pre|]);
    var a := SkipSpace(s, 0);
    assert a == |pre|;
    assert !IsSpace(s[|s| - 1]);
    assert TrimEnd(s, a, |s|) == |s|;
  }

  lemma AppendParts(a: string, b: string)
    ensures (a + b)[..|a|] == a && (a + b)[|a|..] == b
  {
  }

  /** A style "Heading N" has level N. */
  lemma HeadingNumberLevel(n: nat)
    ensures HeadingLevel("Heading " + DecimalString(n)) == n
  {
    var d := DecimalString(n);
    var s := "Heading" + (" " + d);
    assert "Heading " + d == s;
    ParseIntDecimal(n);
    assert 'H' !in " " + d;
    ReplaceAbsent(" " + d, "Heading", "");
    AppendParts("Heading", " " + d);
    assert OccursAt(s, "Heading", 0);
    assert ReplaceAll(s, "Heading", "") == " " + d;
    StripDigits(" ", d);
  }

  /** A style "HeadingN" has level N. */
  lemma HeadingJoinedNumberLevel(n: nat)
    ensures HeadingLevel("Heading" + DecimalString(n)) == n
  {
    var d := DecimalString(n);
    var s := "Heading" + d;
    ParseIntDecimal(n);
    assert 'H' !in d;
    ReplaceAbsent(d, "Heading", "");
    AppendParts("Heading", d);
    assert OccursAt(s, "Heading", 0);
    assert ReplaceAll(s, "Heading", "") == d;
    StripDigits([], d);
  }

  /** A bare "Heading" style has level 1. */
  lemma HeadingWithoutNumber()
    ensures HeadingLevel("Heading") == 1
  {
    assert OccursAt("Heading", "Heading", 0);
    assert ReplaceAll("Heading", "Heading", "") == "";
  }
}
