/** The protocol chunker: eligibility sections become one chunk per
    enumerated criterion, every other section is packed sentence by
    sentence into chunks of bounded token count that overlap by a few
    sentences. Each operation of the chunker is a method proved equal to a
    specification function, and the properties are lemmas about those
    functions. */
module Chunker {
  import opened Wrappers
  import opened Text
  import opened Markers
  import opened Packing
  import opened Documents
  import opened Keywords

  /** A chunk as the chunker hands it to ingestion. The chunker itself
      never sets a page number and always leaves the metadata empty. */
  datatype Chunk = Chunk(
    text: string,
    chunkType: string,
    sectionType: string,
    sectionIndex: Option<int>,
    pageNumber: Option<int>,
    criterionType: Option<string>,
    criterionNumber: Option<int>,
    category: Option<string>)

  // ---------------------------------------------------------------------
  // Criterion categories

  const AgeTerms: seq<string> := ["age", "year", "old", "adult", "pediatric", "elderly"]
  const SexTerms: seq<string> := ["male", "female", "gender", "sex", "pregnant", "nursing"]
  const ClinicalTerms: seq<string> := ["diagnosis", "confirmed", "histolog", "patholog", "disease", "condition"]
  const LabTerms: seq<string> :=
    ["lab", "laboratory", "hemoglobin", "creatinine", "bilirubin", "ast", "alt", "wbc", "platelet"]
  const PriorTerms: seq<string> := ["prior", "previous", "therapy", "treatment", "medication", "drug"]
  const ConsentTerms: seq<string> := ["consent", "willing", "able to"]
  const ReproductiveTerms: seq<string> := ["contraception", "birth control", "fertile"]

  /** The keyword table in the order it is consulted: a category and the
      terms any one of which selects it. */
  const CategoryTable: seq<(string, seq<string>)> := [
    ("demographic", AgeTerms), ("demographic", SexTerms), ("clinical", ClinicalTerms),
    ("laboratory", LabTerms), ("prior_treatment", PriorTerms), ("consent", ConsentTerms),
    ("reproductive", ReproductiveTerms)]

  /** The category of a criterion: the first group of keywords with a
      term occurring in the lower-cased text, or none. */
  function Categorize(text: string): (r: Option<string>)
    ensures r.Some? ==> r.value in Labels(CategoryTable)
  {
    FirstMatchIsLabel(Lower(text), CategoryTable);
    FirstMatch(Lower(text), CategoryTable)
  }

  /** There is no category exactly when no group's terms occur in the
      lower-cased text; otherwise the category is that of the first group
      whose terms occur. */
  lemma CategorizeFirstMatch(text: string, k: nat)
    requires k < |CategoryTable|
    ensures Categorize(text).None? <==> NoRowMatches(Lower(text), CategoryTable)
    ensures FirstRowMatching(Lower(text), CategoryTable, k) ==> Categorize(text) == Some(CategoryTable[k].0)
  {
    FirstMatchNone(Lower(text), CategoryTable);
    if FirstRowMatching(Lower(text), CategoryTable, k) {
      FirstMatchRow(Lower(text), CategoryTable, k);
    }
  }

  /** Matching is by substring, so "stage" is demographic because it
      contains "age". */
  lemma StageIsDemographic()
    ensures Categorize("Disease stage") == Some("demographic")
  {
    var lower := Lower("Disease stage");
    assert lower == "disease stage";
    TermSelectsRow(lower, CategoryTable, 0, 0, 10);
  }

  // ---------------------------------------------------------------------
  // Criteria sections

  /** `"inclusion"` when the section type mentions inclusion, otherwise
      `"exclusion"`. */
  function CriterionType(sectionType: string): (r: string)
    ensures r == "inclusion" <==> Contains(sectionType, "inclusion")
  {
    if Contains(sectionType, "inclusion") then "inclusion" else "exclusion"
  }

  function CriterionChunk(text: string, number: int, sectionType: string, sectionIndex: Option<int>): Chunk {
    Chunk(text, "criterion", sectionType, sectionIndex, None,
          Some(CriterionType(sectionType)), Some(number), Categorize(text))
  }

  /** A criterion chunk for a text of more than `minLength` characters that
      has no surrounding whitespace, with its category. */
  ghost predicate WellFormedCriterion(c: Chunk, minLength: nat, sectionType: string, sectionIndex: Option<int>) {
    c.chunkType == "criterion"
    && c.sectionType == sectionType && c.sectionIndex == sectionIndex
    && c.pageNumber.None?
    && c.criterionType == Some(CriterionType(sectionType))
    && c.criterionNumber.Some?
    && |c.text| > minLength && IsStripped(c.text)
    && c.category == Categorize(c.text)
  }

  ghost predicate AllWellFormed(r: seq<Chunk>, minLength: nat, sectionType: string, sectionIndex: Option<int>) {
    forall k :: 0 <= k < |r| ==> WellFormedCriterion(r[k], minLength, sectionType, sectionIndex)
  }

  /** The criterion numbers run 1, 2, … in order. */
  predicate NumberedInOrder(r: seq<Chunk>) {
    forall k :: 0 <= k < |r| ==> r[k].criterionNumber == Some(k + 1)
  }

  /** The chunk for the `j`-th match, numbered from its marker or its
      position; none when its stripped text has 10 characters or fewer. */
  function MarkerChunk(item: Item, j: nat, sectionType: string, sectionIndex: Option<int>): (r: Option<Chunk>)
    ensures r.Some? <==> |Strip(item.body)| > 10
  {
    var t := Strip(item.body);
    if |t| > 10 then Some(CriterionChunk(t, CriterionNumber(item.marker, j), sectionType, sectionIndex))
    else None
  }

  /** A match's chunk holds its stripped text, the number of its marker
      and the criterion type and category of that text. */
  lemma MarkerChunkWellFormed(item: Item, j: nat, sectionType: string, sectionIndex: Option<int>)
    requires |Strip(item.body)| > 10
    ensures var c := MarkerChunk(item, j, sectionType, sectionIndex).value;
      WellFormedCriterion(c, 10, sectionType, sectionIndex)
      && c.text == Strip(item.body)
      && c.criterionNumber == Some(CriterionNumber(item.marker, j))
  {
  }

  /** The chunks of the marker path, for the matches of `items`; position
      `j` in `items` is the match's position among all matches. */
  function MarkerChunks(items: seq<Item>, sectionType: string, sectionIndex: Option<int>): (r: seq<Chunk>)
    ensures |r| <= |items|
    decreases |items|
  {
    if items == [] then []
    else
      var j := |items| - 1;
      MarkerChunks(items[..j], sectionType, sectionIndex)
      + match MarkerChunk(items[j], j, sectionType, sectionIndex)
        case Some(c) => [c]
        case None => []
  }

  /** `c` is the chunk of one of the matches in `items`. */
  ghost predicate FromMatch(items: seq<Item>, c: Chunk, sectionType: string, sectionIndex: Option<int>) {
    exists j :: 0 <= j < |items| && MarkerChunk(items[j], j, sectionType, sectionIndex) == Some(c)
  }

  lemma FromMatchPrefix(items: seq<Item>, n: nat, c: Chunk, sectionType: string, sectionIndex: Option<int>)
    requires n <= |items|
    requires FromMatch(items[..n], c, sectionType, sectionIndex)
    ensures FromMatch(items, c, sectionType, sectionIndex)
  {
    var j :| 0 <= j < n && MarkerChunk(items[..n][j], j, sectionType, sectionIndex) == Some(c);
    assert items[..n][j] == items[j];
  }

  /** The last match contributes its chunk, if any, at the end. */
  lemma MarkerChunksSnoc(items: seq<Item>, sectionType: string, sectionIndex: Option<int>)
    requires items != []
    ensures var n := |items| - 1;
      MarkerChunks(items, sectionType, sectionIndex)
      == MarkerChunks(items[..n], sectionType, sectionIndex)
         + (if |Strip(items[n].body)| > 10 then [MarkerChunk(items[n], n, sectionType, sectionIndex).value] else [])
  {
  }

  ghost predicate AllFromMatches(items: seq<Item>, r: seq<Chunk>, sectionType: string, sectionIndex: Option<int>) {
    forall k :: 0 <= k < |r| ==> FromMatch(items, r[k], sectionType, sectionIndex)
  }

  /** One more match, as the marker loop takes it. */
  lemma MarkerChunksStep(items: seq<Item>, i: nat, sectionType: string, sectionIndex: Option<int>)
    requires i < |items|
    ensures MarkerChunks(items[..i + 1], sectionType, sectionIndex)
      == MarkerChunks(items[..i], sectionType, sectionIndex)
         + (if |Strip(items[i].body)| > 10
            then [CriterionChunk(Strip(items[i].body), CriterionNumber(items[i].marker, i), sectionType, sectionIndex)]
            else [])
  {
    MarkerChunksSnoc(items[..i + 1], sectionType, sectionIndex);
    assert items[..i + 1][..i] == items[..i];
  }

  /** Every marker-path chunk is the chunk of some match. */
  lemma {:induction false} MarkerChunksSound(items: seq<Item>, sectionType: string, sectionIndex: Option<int>)
    ensures AllFromMatches(items, MarkerChunks(items, sectionType, sectionIndex), sectionType, sectionIndex)
    decreases |items|
  {
    if items != [] {
      var n := |items| - 1;
      var prev := MarkerChunks(items[..n], sectionType, sectionIndex);
      MarkerChunksSound(items[..n], sectionType, sectionIndex);
      MarkerChunksSnoc(items, sectionType, sectionIndex);
      var r := MarkerChunks(items, sectionType, sectionIndex);
      forall k | 0 <= k < |r|
        ensures FromMatch(items, r[k], sectionType, sectionIndex)
      {
        if k < |prev| {
          FromMatchPrefix(items, n, prev[k], sectionType, sectionIndex);
        } else {
          assert MarkerChunk(items[n], n, sectionType, sectionIndex) == Some(r[k]);
        }
      }
    }
  }

  /** Every match whose stripped text is longer than 10 characters has its
      chunk in the result. */
  lemma {:induction false} MarkerChunksComplete(items: seq<Item>, sectionType: string, sectionIndex: Option<int>)
    ensures forall j :: 0 <= j < |items| && |Strip(items[j].body)| > 10 ==>
      MarkerChunk(items[j], j, sectionType, sectionIndex).value in MarkerChunks(items, sectionType, sectionIndex)
    decreases |items|
  {
    if items != [] {
      var n := |items| - 1;
      var prev := MarkerChunks(items[..n], sectionType, sectionIndex);
      var tail := if |Strip(items[n].body)| > 10 then [MarkerChunk(items[n], n, sectionType, sectionIndex).value] else [];
      MarkerChunksComplete(items[..n], sectionType, sectionIndex);
      MarkerChunksSnoc(items, sectionType, sectionIndex);
      assert MarkerChunks(items, sectionType, sectionIndex) == prev + tail;
      forall j | 0 <= j < |items| && |Strip(items[j].body)| > 10
        ensures MarkerChunk(items[j], j, sectionType, sectionIndex).value in prev + tail
      {
        var x := MarkerChunk(items[j], j, sectionType, sectionIndex).value;
        if j < n {
          assert items[..n][j] == items[j];
          assert x in prev;
        } else {
          assert j == n;
          assert tail == [x];
        }
      }
    }
  }

  /** Every marker-path chunk is a well-formed criterion chunk. */
  lemma MarkerChunksWellFormed(items: seq<Item>, sectionType: string, sectionIndex: Option<int>)
    ensures AllWellFormed(MarkerChunks(items, sectionType, sectionIndex), 10, sectionType, sectionIndex)
  {
    var r := MarkerChunks(items, sectionType, sectionIndex);
    MarkerChunksSound(items, sectionType, sectionIndex);
    forall k | 0 <= k < |r|
      ensures WellFormedCriterion(r[k], 10, sectionType, sectionIndex)
    {
      var j :| 0 <= j < |items| && MarkerChunk(items[j], j, sectionType, sectionIndex) == Some(r[k]);
      MarkerChunkWellFormed(items[j], j, sectionType, sectionIndex);
    }
  }

  /** The chunks of the line fallback: every stripped line longer than 20
      characters, numbered 1, 2, … in order. */
  function LineChunks(lines: seq<string>, sectionType: string, sectionIndex: Option<int>): (r: seq<Chunk>)
    ensures |r| <= |lines|
    decreases |lines|
  {
    if lines == [] then []
    else
      var prev := LineChunks(lines[..|lines| - 1], sectionType, sectionIndex);
      var t := Strip(lines[|lines| - 1]);
      if |t| > 20 then prev + [CriterionChunk(t, |prev| + 1, sectionType, sectionIndex)] else prev
  }

  /** One more line, as the line loop takes it. */
  lemma LineChunksStep(lines: seq<string>, i: nat, sectionType: string, sectionIndex: Option<int>)
    requires i < |lines|
    ensures var prev := LineChunks(lines[..i], sectionType, sectionIndex);
      LineChunks(lines[..i + 1], sectionType, sectionIndex)
      == if |Strip(lines[i])| > 20 then prev + [CriterionChunk(Strip(lines[i]), |prev| + 1, sectionType, sectionIndex)] else prev
  {
    assert lines[..i + 1][..i] == lines[..i];
  }

  /** Line-fallback chunks are well-formed criterion chunks of more than 20
      characters, numbered 1, 2, … in order. */
  lemma {:induction false} LineChunksWellFormed(lines: seq<string>, sectionType: string, sectionIndex: Option<int>)
    ensures AllWellFormed(LineChunks(lines, sectionType, sectionIndex), 20, sectionType, sectionIndex)
    ensures NumberedInOrder(LineChunks(lines, sectionType, sectionIndex))
    decreases |lines|
  {
    if lines != [] {
      var prev := LineChunks(lines[..|lines| - 1], sectionType, sectionIndex);
      LineChunksWellFormed(lines[..|lines| - 1], sectionType, sectionIndex);
      var t := Strip(lines[|lines| - 1]);
      if |t| > 20 {
        var r := prev + [CriterionChunk(t, |prev| + 1, sectionType, sectionIndex)];
        assert LineChunks(lines, sectionType, sectionIndex) == r;
        forall k | 0 <= k < |r|
          ensures WellFormedCriterion(r[k], 20, sectionType, sectionIndex) && r[k].criterionNumber == Some(k + 1)
        {
          if k < |prev| {
            assert r[k] == prev[k];
          }
        }
      }
    }
  }

  /** The criteria chunks of a section text: one per match of the marker
      pattern when there is any match, otherwise one per long line. */
  function CriteriaChunks(text: string, sectionType: string, sectionIndex: Option<int>): (r: seq<Chunk>)
    ensures FindAll(text) != [] ==> |r| <= |FindAll(text)|
    ensures FindAll(text) == [] ==> |r| <= |SplitOn(text, '\n')|
  {
    var items := FindAll(text);
    if items != [] then MarkerChunks(items, sectionType, sectionIndex)
    else LineChunks(SplitOn(text, '\n'), sectionType, sectionIndex)
  }

  /** Criteria chunks carry the criterion type and category the source
      assigns, and a stripped text longer than 10 characters. */
  lemma CriteriaChunksWellFormed(text: string, sectionType: string, sectionIndex: Option<int>)
    ensures AllWellFormed(CriteriaChunks(text, sectionType, sectionIndex), 10, sectionType, sectionIndex)
  {
    if FindAll(text) != [] {
      MarkerChunksWellFormed(FindAll(text), sectionType, sectionIndex);
    } else {
      var r := LineChunks(SplitOn(text, '\n'), sectionType, sectionIndex);
      LineChunksWellFormed(SplitOn(text, '\n'), sectionType, sectionIndex);
      forall k | 0 <= k < |r|
        ensures WellFormedCriterion(r[k], 10, sectionType, sectionIndex)
      {
        assert WellFormedCriterion(r[k], 20, sectionType, sectionIndex);
      }
    }
  }

  /** The line fallback is taken exactly when the marker pattern matches at
      no line start; when it is taken the numbers run 1..n. */
  lemma FallbackOnlyWithoutMatches(text: string, sectionType: string, sectionIndex: Option<int>)
    requires forall p :: 0 <= p < |text| ==> MatchAt(text, p).None?
    ensures CriteriaChunks(text, sectionType, sectionIndex) == LineChunks(SplitOn(text, '\n'), sectionType, sectionIndex)
    ensures AllWellFormed(CriteriaChunks(text, sectionType, sectionIndex), 20, sectionType, sectionIndex)
    ensures NumberedInOrder(CriteriaChunks(text, sectionType, sectionIndex))
  {
    FindAllEmpty(text);
    LineChunksWellFormed(SplitOn(text, '\n'), sectionType, sectionIndex);
  }

  /** When the pattern matches somewhere but every match is too short, the
      result is empty: there is no fallback to lines. */
  lemma AllMatchesTooShort(text: string, sectionType: string, sectionIndex: Option<int>)
    requires FindAll(text) != []
    requires forall j :: 0 <= j < |FindAll(text)| ==> |Strip(FindAll(text)[j].body)| <= 10
    ensures CriteriaChunks(text, sectionType, sectionIndex) == []
  {
    MarkerChunksAllShort(FindAll(text), sectionType, sectionIndex);
  }

  lemma {:induction false} MarkerChunksAllShort(items: seq<Item>, sectionType: string, sectionIndex: Option<int>)
    requires forall j :: 0 <= j < |items| ==> |Strip(items[j].body)| <= 10
    ensures MarkerChunks(items, sectionType, sectionIndex) == []
    decreases |items|
  {
    if items != [] {
      var j := |items| - 1;
      forall k | 0 <= k < j
        ensures |Strip(items[..j][k].body)| <= 10
      {
        assert items[..j][k] == items[k];
      }
      MarkerChunksAllShort(items[..j], sectionType, sectionIndex);
    }
  }

  /** `_chunk_criteria`: the marker pattern's matches in order, or the
      lines when there is none. */
  method ChunkCriteria(text: string, sectionType: string, sectionIndex: Option<int>) returns (chunks: seq<Chunk>)
    ensures chunks == CriteriaChunks(text, sectionType, sectionIndex)
  {
    var criterionType := if Contains(sectionType, "inclusion") then "inclusion" else "exclusion";
    var matches := FindAll(text);
    if |matches| > 0 {
      chunks := ChunkMatches(matches, criterionType, sectionType, sectionIndex);
    } else {
      chunks := ChunkLines(SplitOn(text, '\n'), criterionType, sectionType, sectionIndex);
    }
  }

  /** The marker loop of `_chunk_criteria`: a chunk per match whose
      stripped text is longer than 10 characters. */
  method ChunkMatches(matches: seq<Item>, criterionType: string, sectionType: string, sectionIndex: Option<int>)
    returns (chunks: seq<Chunk>)
    requires criterionType == CriterionType(sectionType)
    ensures chunks == MarkerChunks(matches, sectionType, sectionIndex)
  {
    chunks := [];
    var i := 0;
    while i < |matches|
      invariant 0 <= i <= |matches|
      invariant chunks == MarkerChunks(matches[..i], sectionType, sectionIndex)
    {
      var number := CriterionNumber(matches[i].marker, i);
      var criterionText := Strip(matches[i].body);
      MarkerChunksStep(matches, i, sectionType, sectionIndex);
      if |criterionText| > 10 {
        var chunk := Chunk(criterionText, "criterion", sectionType, sectionIndex, None,
                           Some(criterionType), Some(number), Categorize(criterionText));
        chunks := chunks + [chunk];
      }
      i := i + 1;
    }
    assert matches[..i] == matches;
  }

  /** The line loop of `_chunk_criteria`: a chunk per stripped line longer
      than 20 characters, numbered by a counter. */
  method ChunkLines(lines: seq<string>, criterionType: string, sectionType: string, sectionIndex: Option<int>)
    returns (chunks: seq<Chunk>)
    requires criterionType == CriterionType(sectionType)
    ensures chunks == LineChunks(lines, sectionType, sectionIndex)
  {
    chunks := [];
    var number := 0;
    var i := 0;
    while i < |lines|
      invariant 0 <= i <= |lines|
      invariant chunks == LineChunks(lines[..i], sectionType, sectionIndex)
      invariant number == |chunks|
    {
      LineChunksStep(lines, i, sectionType, sectionIndex);
      chunks, number := AddLine(chunks, number, Strip(lines[i]), criterionType, sectionType, sectionIndex);
      i := i + 1;
    }
    assert lines[..i] == lines;
  }

  /** One line of the line loop: a stripped line longer than 20 characters
      becomes the next numbered criterion. */
  method AddLine(chunks: seq<Chunk>, number: int, line: string, criterionType: string, sectionType: string, sectionIndex: Option<int>)
    returns (chunks': seq<Chunk>, number': int)
    requires criterionType == CriterionType(sectionType) && number == |chunks|
    ensures chunks' == if |line| > 20 then chunks + [CriterionChunk(line, |chunks| + 1, sectionType, sectionIndex)] else chunks
    ensures number' == |chunks'|
  {
    chunks', number' := chunks, number;
    if |line| > 20 {
      number' := number + 1;
      var chunk := Chunk(line, "criterion", sectionType, sectionIndex, None,
                         Some(criterionType), Some(number'), Categorize(line));
      chunks' := chunks + [chunk];
    }
  }

  // ---------------------------------------------------------------------
  // Narrative sections

  function TextChunk(sentences: seq<string>, sectionType: string, sectionIndex: Option<int>): Chunk {
    Chunk(Join(" ", sentences), "text", sectionType, sectionIndex, None, None, None, None)
  }

  /** `r` holds one chunk per window of `w` over the sentences `s`, with
      the window's sentences joined by single spaces. */
  ghost predicate ChunksOfWindows(r: seq<Chunk>, s: seq<string>, w: seq<(nat, nat)>, sectionType: string, sectionIndex: Option<int>) {
    |r| == |w|
    && forall k :: 0 <= k < |w| ==>
         w[k].0 < w[k].1 <= |s| && r[k] == TextChunk(s[w[k].0..w[k].1], sectionType, sectionIndex)
  }

  /** The narrative chunks of a sentence list: one per packing window,
      holding the window's sentences joined by single spaces. */
  function WindowChunks(s: seq<string>, chunkSize: int, chunkOverlap: int, sectionType: string, sectionIndex: Option<int>): (r: seq<Chunk>)
    ensures ChunksOfWindows(r, s, Windows(s, chunkSize, chunkOverlap), sectionType, sectionIndex)
  {
    var w := Windows(s, chunkSize, chunkOverlap);
    PackedWindows(s, chunkSize, chunkOverlap);
    seq(|w|, k requires 0 <= k < |w| => TextChunk(s[w[k].0..w[k].1], sectionType, sectionIndex))
  }

  /** The narrative chunks of a text: none exactly when the text is blank,
      and each a "text" chunk without criterion fields. */
  function TextChunks(text: string, chunkSize: int, chunkOverlap: int, sectionType: string, sectionIndex: Option<int>)
    : (r: seq<Chunk>)
    ensures r == [] <==> IsBlank(text)
    ensures AllNarrative(r)
  {
    WindowChunks(Sentences(text), chunkSize, chunkOverlap, sectionType, sectionIndex)
  }

  lemma ChunksOfWindowsSnoc(r: seq<Chunk>, s: seq<string>, w: seq<(nat, nat)>, a: nat, i: nat, sectionType: string, sectionIndex: Option<int>)
    requires ChunksOfWindows(r, s, w, sectionType, sectionIndex)
    requires a < i <= |s|
    ensures ChunksOfWindows(r + [TextChunk(s[a..i], sectionType, sectionIndex)], s, w + [(a, i)], sectionType, sectionIndex)
  {
  }

  lemma ChunksOfWindowsUnique(r: seq<Chunk>, r': seq<Chunk>, s: seq<string>, w: seq<(nat, nat)>, sectionType: string, sectionIndex: Option<int>)
    requires ChunksOfWindows(r, s, w, sectionType, sectionIndex)
    requires ChunksOfWindows(r', s, w, sectionType, sectionIndex)
    ensures r == r'
  {
  }

  /** Every chunk is a "text" chunk without criterion number or category. */
  predicate AllNarrative(r: seq<Chunk>) {
    forall k :: 0 <= k < |r| ==> r[k].chunkType == "text" && r[k].criterionNumber.None? && r[k].category.None?
  }

  /** The seed of the next chunk: the longest suffix of the closed chunk's
      sentences whose tokens fit `room`, collected from the back and stopping
      at the first sentence that does not fit; also its token total. */
  method Overlap(current: seq<string>, room: int) returns (seed: seq<string>, seedTokens: nat)
    ensures seed == current[|current| - OverlapLen(Counts(current), room)..]
    ensures seedTokens == TokenSum(Counts(seed))
  {
    ghost var cs := Counts(current);
    ghost var n := OverlapLen(cs, room);
    seed := [];
    seedTokens := 0;
    var j := |current|;
    var open := true;
    assert cs[..j] == cs;
    while j > 0 && open
      invariant 0 <= j <= |current|
      invariant seed == current[j..]
      invariant seedTokens == TokenSum(cs[j..])
      invariant n == |current| - j + OverlapLen(cs[..j], room - seedTokens)
      invariant !open ==> OverlapLen(cs[..j], room - seedTokens) == 0
      decreases j, open
    {
      var sentence := current[j - 1];
      var tokens := Tokens(sentence);
      CountsAt(current, j - 1);
      if seedTokens + tokens <= room {
        OverlapTake(cs, j, room, seedTokens, n);
        SliceCons(current, j);
        seed := [sentence] + seed;
        seedTokens := seedTokens + tokens;
        j := j - 1;
      } else {
        OverlapLenStop(cs, j, room - seedTokens);
        open := false;
      }
    }
    OverlapDone(current, cs, j, room, seedTokens, n);
  }

  /** When the seed loop stops, the seed is the whole overlap. */
  lemma OverlapDone(current: seq<string>, cs: seq<nat>, j: nat, room: int, seedTokens: int, n: int)
    requires cs == Counts(current) && j <= |current|
    requires seedTokens == TokenSum(cs[j..])
    requires n == |current| - j + OverlapLen(cs[..j], room - seedTokens)
    requires j == 0 || OverlapLen(cs[..j], room - seedTokens) == 0
    ensures n == |current| - j
    ensures seedTokens == TokenSum(Counts(current[j..]))
  {
    CountsSlice(current, j, |current|);
    assert current[j..|current|] == current[j..];
    assert cs[j..|current|] == cs[j..];
  }

  /** Taking sentence `j - 1` into the seed keeps the loop's accounting. */
  lemma OverlapTake(cs: seq<nat>, j: nat, room: int, seedTokens: int, n: int)
    requires 0 < j <= |cs|
    requires seedTokens == TokenSum(cs[j..]) && seedTokens + cs[j - 1] <= room
    requires n == |cs| - j + OverlapLen(cs[..j], room - seedTokens)
    ensures seedTokens + cs[j - 1] == TokenSum(cs[j - 1..])
    ensures n == |cs| - (j - 1) + OverlapLen(cs[..j - 1], room - (seedTokens + cs[j - 1]))
  {
    OverlapLenTake(cs, j, room, seedTokens, n);
    SliceCons(cs, j);
    TokenSumCons(cs[j - 1], cs[j..]);
  }

  /** The suffix from `j - 1` is element `j - 1` before the suffix from `j`. */
  lemma SliceCons<T>(s: seq<T>, j: nat)
    requires 0 < j <= |s|
    ensures s[j - 1..] == [s[j - 1]] + s[j..]
  {
  }

  /** `_chunk_text`: splits the text into sentence pieces and packs them. */
  method ChunkText(text: string, chunkSize: int, chunkOverlap: int, sectionType: string, sectionIndex: Option<int>)
    returns (chunks: seq<Chunk>)
    ensures chunks == TextChunks(text, chunkSize, chunkOverlap, sectionType, sectionIndex)
  {
    var pieces := SplitSentences(text);
    chunks := PackSentences(pieces, chunkSize, chunkOverlap, sectionType, sectionIndex);
  }

  /** The packing loop of `_chunk_text`: strips each piece and skips blank
      ones, closes the current chunk before a sentence that would take it
      over `chunkSize` tokens, and seeds the next chunk with the overlap.
      Token counts are in tenths, so the budgets are scaled by ten. */
  method PackSentences(pieces: seq<string>, chunkSize: int, chunkOverlap: int, sectionType: string, sectionIndex: Option<int>)
    returns (chunks: seq<Chunk>)
    ensures chunks == WindowChunks(CleanSentences(pieces), chunkSize, chunkOverlap, sectionType, sectionIndex)
  {
    ghost var s := CleanSentences(pieces);
    var budget, room := 10 * chunkSize, 10 * chunkOverlap;
    ghost var w := Windows(s, chunkSize, chunkOverlap);
    ghost var a: nat, i: nat := 0, 0;
    ghost var done: seq<(nat, nat)> := [];
    chunks := [];
    var current: seq<string> := [];
    var currentLength: nat := 0;
    var p := 0;
    while p < |pieces|
      invariant 0 <= p <= |pieces|
      invariant i == |CleanSentences(pieces[..p])|
      invariant PackState(s, budget, room, w, a, i, done, current, currentLength, chunks, sectionType, sectionIndex)
    {
      chunks, current, currentLength, a, i, done :=
        PackPiece(pieces, p, pieces[p], s, budget, room, w, a, i, done, chunks, current, currentLength, sectionType, sectionIndex);
      p := p + 1;
    }
    assert pieces[..p] == pieces;
    chunks := CloseLast(s, budget, room, w, a, done, chunks, current, currentLength, sectionType, sectionIndex);
    ChunksOfWindowsUnique(chunks, WindowChunks(s, chunkSize, chunkOverlap, sectionType, sectionIndex), s, w, sectionType, sectionIndex);
  }

  /** One piece of the packing loop: stripped, and added unless empty. */
  method PackPiece(ghost pieces: seq<string>, ghost p: nat, piece: string, ghost s: seq<string>, budget: int, room: int,
                   ghost w: seq<(nat, nat)>, ghost a: nat, ghost i: nat, ghost done: seq<(nat, nat)>,
                   chunks: seq<Chunk>, current: seq<string>, currentLength: nat, sectionType: string, sectionIndex: Option<int>)
    returns (chunks': seq<Chunk>, current': seq<string>, currentLength': nat, ghost a': nat, ghost i': nat, ghost done': seq<(nat, nat)>)
    requires s == CleanSentences(pieces) && p < |pieces| && piece == pieces[p]
    requires i == |CleanSentences(pieces[..p])|
    requires PackState(s, budget, room, w, a, i, done, current, currentLength, chunks, sectionType, sectionIndex)
    ensures i' == |CleanSentences(pieces[..p + 1])|
    ensures PackState(s, budget, room, w, a', i', done', current', currentLength', chunks', sectionType, sectionIndex)
  {
    var sentence := Strip(piece);
    CleanSentencesNext(pieces, p, i);
    chunks', current', currentLength', a', i', done' := chunks, current, currentLength, a, i, done;
    if sentence != [] {
      chunks', current', currentLength', a', done' :=
        AddSentence(s, budget, room, w, a, i, done, sentence, chunks, current, currentLength, sectionType, sectionIndex);
      i' := i + 1;
    }
  }

  /** The end of the packing loop: a non-empty open chunk is closed. */
  method CloseLast(ghost s: seq<string>, budget: int, room: int, ghost w: seq<(nat, nat)>, ghost a: nat,
                   ghost done: seq<(nat, nat)>, chunks: seq<Chunk>, current: seq<string>, currentLength: nat,
                   sectionType: string, sectionIndex: Option<int>)
    returns (chunks': seq<Chunk>)
    requires PackState(s, budget, room, w, a, |s|, done, current, currentLength, chunks, sectionType, sectionIndex)
    ensures ChunksOfWindows(chunks', s, w, sectionType, sectionIndex)
  {
    PackEnd(Counts(s), budget, room, a, done);
    chunks' := chunks;
    if current != [] {
      ChunksOfWindowsSnoc(chunks, s, done, a, |s|, sectionType, sectionIndex);
      chunks' := chunks + [TextChunk(current, sectionType, sectionIndex)];
    }
  }

  /** The state of the packing loop after the sentences `s[..i]`: the open
      chunk holds the window `[a, i)` and its token total, the closed chunks
      are those of the windows `done`, and `done` followed by what packing
      still produces from `(a, i)` is the whole packing `w`. */
  ghost predicate PackState(s: seq<string>, budget: int, room: int, w: seq<(nat, nat)>, a: nat, i: nat,
                            done: seq<(nat, nat)>, current: seq<string>, currentLength: nat, chunks: seq<Chunk>,
                            sectionType: string, sectionIndex: Option<int>)
  {
    a <= i <= |s|
    && current == s[a..i]
    && currentLength == TokenSum(Counts(s)[a..i])
    && w == done + PackFrom(Counts(s), budget, room, a, i)
    && ChunksOfWindows(chunks, s, done, sectionType, sectionIndex)
  }

  /** One non-blank sentence of the packing loop: if it does not fit the
      open chunk, the chunk is closed and the next one is seeded with the
      overlap; then the sentence joins the open chunk. */
  method AddSentence(ghost s: seq<string>, budget: int, room: int, ghost w: seq<(nat, nat)>, ghost a: nat, ghost i: nat,
                     ghost done: seq<(nat, nat)>, sentence: string, chunks: seq<Chunk>, current: seq<string>, currentLength: nat,
                     sectionType: string, sectionIndex: Option<int>)
    returns (chunks': seq<Chunk>, current': seq<string>, currentLength': nat, ghost a': nat, ghost done': seq<(nat, nat)>)
    requires PackState(s, budget, room, w, a, i, done, current, currentLength, chunks, sectionType, sectionIndex)
    requires i < |s| && s[i] == sentence
    ensures PackState(s, budget, room, w, a', i + 1, done', current', currentLength', chunks', sectionType, sectionIndex)
  {
    ghost var c := Counts(s);
    var tokens := Tokens(sentence);
    CountsAt(s, i);
    assert (current != []) == (a < i);
    chunks', current', currentLength', a', done' := chunks, current, currentLength, a, done;
    if currentLength + tokens > budget && current != [] {
      PackClose(c, budget, room, a, i, done);
      ChunksOfWindowsSnoc(chunks, s, done, a, i, sectionType, sectionIndex);
      chunks' := chunks + [TextChunk(current, sectionType, sectionIndex)];
      done' := done + [(a, i)];
      current', currentLength' := Overlap(current, room);
      a' := OverlapSeed(s, a, i, room, current', currentLength');
    } else {
      PackOpen(c, budget, room, a, i, done);
    }
    TokenSumSnoc(c, a', i);
    SliceSnoc(s, a', i);
    current' := current' + [sentence];
    currentLength' := currentLength' + tokens;
  }

  lemma SliceSnoc<T>(s: seq<T>, a: nat, i: nat)
    requires a <= i < |s|
    ensures s[a..i + 1] == s[a..i] + [s[i]]
  {
  }

  /** What `Overlap` hands back for the window `[a, i)` of `s` is the
      window `[a', i)` that packing opens next, with its token total. */
  lemma OverlapSeed(s: seq<string>, a: nat, i: nat, room: int, seed: seq<string>, seedTokens: nat) returns (a': nat)
    requires a <= i <= |s|
    requires seed == s[a..i][|s[a..i]| - OverlapLen(Counts(s[a..i]), room)..]
    requires seedTokens == TokenSum(Counts(seed))
    ensures a' == i - OverlapLen(Counts(s)[a..i], room)
    ensures a <= a' <= i && seed == s[a'..i] && seedTokens == TokenSum(Counts(s)[a'..i])
  {
    CountsSlice(s, a, i);
    a' := i - OverlapLen(Counts(s)[a..i], room);
    assert seed == s[a'..i];
    CountsSlice(s, a', i);
  }

  // ---------------------------------------------------------------------
  // Sections and documents

  /** True for the two section types that take the criteria path. */
  predicate IsCriteriaSection(sectionType: string) {
    sectionType == "inclusion_criteria" || sectionType == "exclusion_criteria"
  }

  /** Every chunk carries the section's type and index, and is a criterion
      chunk exactly when the section is a criteria section. */
  predicate KindsOfSection(r: seq<Chunk>, sec: Section) {
    forall k :: 0 <= k < |r| ==>
      (r[k].chunkType == "criterion" <==> IsCriteriaSection(sec.sectionType))
      && r[k].sectionType == sec.sectionType && r[k].sectionIndex == sec.index
  }

  /** The chunks of one section: none for a blank section, criteria chunks
      for the two criteria section types, narrative chunks otherwise, so a
      non-blank narrative section has at least one chunk. */
  function SectionChunks(sec: Section, chunkSize: int, chunkOverlap: int): (r: seq<Chunk>)
    ensures IsBlank(sec.rawText) ==> r == []
    ensures !IsBlank(sec.rawText) && !IsCriteriaSection(sec.sectionType) ==> r != []
    ensures KindsOfSection(r, sec)
  {
    if IsBlank(sec.rawText) then []
    else if IsCriteriaSection(sec.sectionType) then
      CriteriaChunksWellFormed(sec.rawText, sec.sectionType, sec.index);
      CriteriaChunks(sec.rawText, sec.sectionType, sec.index)
    else TextChunks(sec.rawText, chunkSize, chunkOverlap, sec.sectionType, sec.index)
  }

  /** `_chunk_section`. */
  method ChunkSection(sec: Section, chunkSize: int, chunkOverlap: int) returns (chunks: seq<Chunk>)
    ensures chunks == SectionChunks(sec, chunkSize, chunkOverlap)
  {
    if Strip(sec.rawText) == [] {
      return [];
    }
    if sec.sectionType == "inclusion_criteria" || sec.sectionType == "exclusion_criteria" {
      chunks := ChunkCriteria(sec.rawText, sec.sectionType, sec.index);
    } else {
      chunks := ChunkText(sec.rawText, chunkSize, chunkOverlap, sec.sectionType, sec.index);
    }
  }

  /** The chunks of a list of sections, section after section. */
  function SectionsChunks(sections: seq<Section>, chunkSize: int, chunkOverlap: int): seq<Chunk>
    decreases |sections|
  {
    if sections == [] then []
    else SectionsChunks(sections[..|sections| - 1], chunkSize, chunkOverlap)
         + SectionChunks(sections[|sections| - 1], chunkSize, chunkOverlap)
  }

  /** The chunks of a document: those of its sections when it has any,
      otherwise the narrative chunks of its pages joined by newlines, typed
      "other" and without a section index. */
  function DocumentChunks(sections: seq<Section>, pages: seq<string>, chunkSize: int, chunkOverlap: int)
    : (r: seq<Chunk>)
    ensures |sections| == 0 ==> AllNarrative(r) && (r == [] <==> IsBlank(Join("\n", pages)))
  {
    if |sections| > 0 then SectionsChunks(sections, chunkSize, chunkOverlap)
    else TextChunks(Join("\n", pages), chunkSize, chunkOverlap, "other", None)
  }

  /** `chunk_document`. */
  method ChunkDocument(sections: seq<Section>, pages: seq<string>, chunkSize: int, chunkOverlap: int)
    returns (chunks: seq<Chunk>)
    ensures chunks == DocumentChunks(sections, pages, chunkSize, chunkOverlap)
  {
    chunks := [];
    if |sections| > 0 {
      var i := 0;
      while i < |sections|
        invariant 0 <= i <= |sections|
        invariant chunks == SectionsChunks(sections[..i], chunkSize, chunkOverlap)
      {
        var sectionChunks := ChunkSection(sections[i], chunkSize, chunkOverlap);
        chunks := chunks + sectionChunks;
        assert sections[..i + 1][..i] == sections[..i];
        i := i + 1;
      }
      assert sections[..i] == sections;
    } else {
      var fullText := Join("\n", pages);
      chunks := ChunkText(fullText, chunkSize, chunkOverlap, "other", None);
    }
  }
}
