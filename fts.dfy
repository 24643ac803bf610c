/** Full-text search: the query builder that turns free text into an FTS5
    match expression, and the post-processing of the rows the FTS5 engine
    returns (filtering by protocol and section type, the row limit, and
    BM25 scores made positive). The engine's matching and BM25 ranking are
    not modelled: its ranked rows are an input. */
module Fts {
  import opened Wrappers
  import opened Text
  import opened Sorting
  import opened Sql

  // ---------------------------------------------------------------------
  // `_build_fts_query`

  /** The characters FTS5 would read as query syntax. */
  const SpecialChars: string := "\"*^:(){}[]"

  /** `s` with every character of `chars` turned into a space. */
  function Blank(s: string, chars: string): (r: string)
    ensures |r| == |s|
    ensures forall i :: 0 <= i < |s| ==> r[i] == if s[i] in chars then ' ' else s[i]
  {
    seq(|s|, i requires 0 <= i < |s| => if s[i] in chars then ' ' else s[i])
  }

  /** `s.replace(c, " ")` turns each occurrence of `c` into a space. */
  lemma {:induction false} ReplaceWithSpace(s: string, c: char)
    ensures ReplaceAll(s, [c], " ") == Blank(s, [c])
    decreases |s|
  {
    if |s| >= 1 {
      ReplaceWithSpace(s[1..], c);
      assert s[..1] == [s[0]];
      var r := ReplaceAll(s, [c], " ");
      assert r == (if s[0] == c then " " else [s[0]]) + Blank(s[1..], [c]);
    }
  }

  /** Blanking one more character extends the set blanked so far. */
  lemma BlankMore(s: string, chars: string, c: char)
    requires c != ' '
    ensures Blank(Blank(s, chars), [c]) == Blank(s, chars + [c])
  {
  }

  /** The words of the cleaned query (`w.strip()` of a word is the word
      itself and never empty, see `WordsStripped`). */
  function QueryWords(cleaned: string): seq<string> {
    Words(cleaned)
  }

  /** The words of at least two characters, in order. */
  function LongWords(words: seq<string>): (r: seq<string>)
    ensures |r| <= |words|
    decreases |words|
  {
    if words == [] then []
    else LongWords(words[..|words| - 1]) + if |words[|words| - 1]| >= 2 then [words[|words| - 1]] else []
  }

  /** A term rendered as a quoted prefix query. */
  function Quote(w: string): string {
    "\"" + w + "\"*"
  }

  function Quoted(ws: seq<string>): (r: seq<string>)
    ensures |r| == |ws| && forall k :: 0 <= k < |ws| ==> r[k] == Quote(ws[k])
  {
    seq(|ws|, k requires 0 <= k < |ws| => Quote(ws[k]))
  }

  /** The search terms of a query: its words of at least two characters
      once the special characters are blanked. */
  function Terms(query: string): seq<string> {
    LongWords(QueryWords(Blank(query, SpecialChars)))
  }

  /** The match expression for `query`: the terms as quoted prefix queries
      joined with OR; `""` when the query has no words at all; the whole
      cleaned query quoted when it has words but none of two characters. */
  function FtsQuery(query: string): (r: string)
    ensures CountChar(r, '"') == 2 * if Terms(query) == [] then 1 else |Terms(query)|
  {
    var cleaned := Blank(query, SpecialChars);
    QuotesOf(query, cleaned);
    if QueryWords(cleaned) == [] then "\"\""
    else if Terms(query) == [] then "\"" + cleaned + "\""
    else Join(" OR ", Quoted(Terms(query)))
  }

  /** The quote characters of each form the match expression can take:
      none in the cleaned query, two per quoted term, two around the whole
      cleaned query. */
  lemma QuotesOf(query: string, cleaned: string)
    requires cleaned == Blank(query, SpecialChars)
    ensures '"' !in cleaned
    ensures Terms(query) != [] ==> CountChar(Join(" OR ", Quoted(Terms(query))), '"') == 2 * |Terms(query)|
    ensures CountChar("\"" + cleaned + "\"", '"') == 2
  {
    assert '"' in SpecialChars;
    TermsClean(query);
    if Terms(query) != [] {
      JoinQuotes(Terms(query));
    }
    CountCharAppend("\"", cleaned, '"');
    CountCharAppend("\"" + cleaned, "\"", '"');
  }

  /** `_build_fts_query`. */
  method BuildFtsQuery(query0: string) returns (r: string)
    ensures r == FtsQuery(query0)
  {
    var query := query0;
    for k := 0 to |SpecialChars|
      invariant query == Blank(query0, SpecialChars[..k])
    {
      ReplaceWithSpace(query, SpecialChars[k]);
      BlankMore(query0, SpecialChars[..k], SpecialChars[k]);
      assert SpecialChars[..k + 1] == SpecialChars[..k] + [SpecialChars[k]];
      query := ReplaceAll(query, [SpecialChars[k]], " ");
    }
    assert SpecialChars[..|SpecialChars|] == SpecialChars;
    var words := QueryWords(query);
    if words == [] {
      return "\"\"";
    }
    var parts: seq<string> := [];
    for k := 0 to |words|
      invariant parts == Quoted(LongWords(words[..k]))
    {
      assert words[..k + 1][..k] == words[..k];
      if |words[k]| >= 2 {
        parts := parts + [Quote(words[k])];
      }
    }
    assert words[..|words|] == words;
    if parts == [] {
      return "\"" + query + "\"";
    }
    r := Join(" OR ", parts);
  }

  // ---------------------------------------------------------------------
  // What the builder promises

  /** Every word is stripped and not empty, so the `w.strip()` filter keeps
      each word unchanged. */
  lemma {:induction false} WordsStripped(s: string)
    ensures forall k :: 0 <= k < |Words(s)| ==> Words(s)[k] != [] && Strip(Words(s)[k]) == Words(s)[k]
    decreases |s|
  {
    if s != [] {
      if IsSpace(s[0]) {
        WordsStripped(s[1..]);
      } else {
        var n := WordLength(s);
        WordsStripped(s[n..]);
        StripStripped(s[..n]);
        assert Words(s) == [s[..n]] + Words(s[n..]);
      }
    }
  }

  /** A character missing from `s` is missing from each of its words. */
  lemma {:induction false} WordsAvoid(s: string, c: char)
    requires c !in s
    ensures forall k :: 0 <= k < |Words(s)| ==> c !in Words(s)[k]
    decreases |s|
  {
    if s != [] {
      assert c !in s[1..] by {
        forall i | 0 <= i < |s[1..]| ensures s[1..][i] != c {
          assert s[1..][i] == s[i + 1];
        }
      }
      if IsSpace(s[0]) {
        WordsAvoid(s[1..], c);
      } else {
        var n := WordLength(s);
        assert c !in s[n..] by {
          forall i | 0 <= i < |s[n..]| ensures s[n..][i] != c {
            assert s[n..][i] == s[n + i];
          }
        }
        WordsAvoid(s[n..], c);
        assert c !in s[..n] by {
          forall i | 0 <= i < n ensures s[..n][i] != c {
            assert s[..n][i] == s[i];
          }
        }
        assert Words(s) == [s[..n]] + Words(s[n..]);
      }
    }
  }

  /** A word is a term exactly when it is at least two characters long;
      terms keep the order of the words. */
  lemma {:induction false} LongWordsFilter(words: seq<string>)
    ensures forall w :: w in LongWords(words) <==> w in words && |w| >= 2
    decreases |words|
  {
    if words != [] {
      LongWordsFilter(words[..|words| - 1]);
      assert words == words[..|words| - 1] + [words[|words| - 1]];
    }
  }

  lemma {:induction false} LongWordsFrom(words: seq<string>, c: char)
    requires forall k :: 0 <= k < |words| ==> c !in words[k]
    ensures forall k :: 0 <= k < |LongWords(words)| ==> c !in LongWords(words)[k]
    decreases |words|
  {
    if words != [] {
      LongWordsFrom(words[..|words| - 1], c);
    }
  }

  /** No term holds a special character or whitespace, and each has at
      least two characters. */
  lemma TermsClean(query: string)
    ensures forall k, ch :: 0 <= k < |Terms(query)| && ch in SpecialChars ==> ch !in Terms(query)[k]
    ensures forall k :: 0 <= k < |Terms(query)| ==> |Terms(query)[k]| >= 2 && Strip(Terms(query)[k]) == Terms(query)[k]
  {
    var cleaned := Blank(query, SpecialChars);
    var ts := Terms(query);
    forall ch | ch in SpecialChars
      ensures forall k :: 0 <= k < |ts| ==> ch !in ts[k]
    {
      WordsAvoid(cleaned, ch);
      LongWordsFrom(Words(cleaned), ch);
    }
    WordsStripped(cleaned);
    LongWordsFilter(Words(cleaned));
    forall k | 0 <= k < |ts|
      ensures |ts[k]| >= 2 && Strip(ts[k]) == ts[k]
    {
      assert ts[k] in Words(cleaned);
    }
  }

  /** A query without words becomes `""`. */
  lemma EmptyQuery(query: string)
    requires forall i :: 0 <= i < |query| ==> IsSpace(query[i]) || query[i] in SpecialChars
    ensures FtsQuery(query) == "\"\""
  {
    var cleaned := Blank(query, SpecialChars);
    AllSpaceNoWords(cleaned);
  }

  lemma {:induction false} AllSpaceNoWords(s: string)
    requires forall i :: 0 <= i < |s| ==> IsSpace(s[i])
    ensures Words(s) == []
    decreases |s|
  {
    if s != [] {
      AllSpaceNoWords(s[1..]);
    }
  }

  lemma {:induction false} CountCharAppend(a: string, b: string, c: char)
    ensures CountChar(a + b, c) == CountChar(a, c) + CountChar(b, c)
    decreases |a|
  {
    if a == [] {
      assert a + b == b;
    } else {
      assert (a + b)[1..] == a[1..] + b;
      assert (a + b)[0] == a[0];
      CountCharAppend(a[1..], b, c);
    }
  }

  /** Each quoted term adds exactly two quote characters. */
  lemma QuoteQuotes(w: string)
    requires '"' !in w
    ensures CountChar(Quote(w), '"') == 2
  {
    CountCharAppend("\"", w, '"');
    CountCharAppend("\"" + w, "\"*", '"');
  }

  lemma {:induction false} JoinQuotes(ts: seq<string>)
    requires forall k :: 0 <= k < |ts| ==> '"' !in ts[k]
    ensures CountChar(Join(" OR ", Quoted(ts)), '"') == 2 * |ts|
    decreases |ts|
  {
    if |ts| == 1 {
      QuoteQuotes(ts[0]);
    } else if |ts| > 1 {
      JoinQuotes(ts[1..]);
      QuoteQuotes(ts[0]);
      assert Quoted(ts)[1..] == Quoted(ts[1..]);
      var rest := Join(" OR ", Quoted(ts[1..]));
      CountCharAppend(Quote(ts[0]), " OR ", '"');
      CountCharAppend(Quote(ts[0]) + " OR ", rest, '"');
    }
  }

  // ---------------------------------------------------------------------
  // `search`

  /** A row of the FTS5 engine's answer, joined with its chunk, document
      and (possibly missing) section. */
  datatype FtsRow = FtsRow(chunkId: int, documentId: int, protocolId: Option<string>,
                           chunkText: string, sectionType: Option<string>, bm25: real)

  datatype FtsResult = FtsResult(chunkId: int, documentId: int, protocolId: Option<string>,
                                 chunkText: string, sectionType: Option<string>, score: real)

  predicate Passes(row: FtsRow, protocolIds: seq<string>, sectionTypes: seq<string>) {
    InFilter(row.protocolId, protocolIds) && InFilter(row.sectionType, sectionTypes)
  }

  /** The rows passing the filters, in rank order. */
  function Filtered(rows: seq<FtsRow>, protocolIds: seq<string>, sectionTypes: seq<string>): seq<FtsRow> {
    Where(rows, row => Passes(row, protocolIds, sectionTypes))
  }

  /** What the engine hands back: the passing rows in rank order, cut by
      the SQL limit. */
  function Fetched(rows: seq<FtsRow>, limit: int, protocolIds: seq<string>, sectionTypes: seq<string>): (r: seq<FtsRow>)
    ensures limit >= 0 ==> |r| <= limit
    ensures forall row :: row in r ==> row in rows && Passes(row, protocolIds, sectionTypes)
  {
    FilteredSpec(rows, protocolIds, sectionTypes);
    SqlLimit(Filtered(rows, protocolIds, sectionTypes), limit)
  }

  function Abs(x: real): (r: real)
    ensures r >= 0.0 && (r == x || r == -x)
  {
    if x < 0.0 then -x else x
  }

  function ToResult(row: FtsRow): FtsResult {
    FtsResult(row.chunkId, row.documentId, row.protocolId, row.chunkText, row.sectionType, Abs(row.bm25))
  }

  /** The answer of `search`: one result per fetched row, in the same
      order, its score the magnitude of the BM25 value. */
  function Results(rows: seq<FtsRow>, limit: int, protocolIds: seq<string>, sectionTypes: seq<string>)
    : (rs: seq<FtsResult>)
    ensures var fetched := Fetched(rows, limit, protocolIds, sectionTypes);
      |rs| == |fetched| && forall k :: 0 <= k < |rs| ==> rs[k] == ToResult(fetched[k])
  {
    var fetched := Fetched(rows, limit, protocolIds, sectionTypes);
    seq(|fetched|, k requires 0 <= k < |fetched| => ToResult(fetched[k]))
  }

  /** `search`, given the engine's rows for the match expression, ranked
      by BM25. */
  method Search(rows: seq<FtsRow>, limit: int, protocolIds: seq<string>, sectionTypes: seq<string>)
    returns (results: seq<FtsResult>)
    ensures results == Results(rows, limit, protocolIds, sectionTypes)
  {
    var fetched := Fetched(rows, limit, protocolIds, sectionTypes);
    results := [];
    for k := 0 to |fetched|
      invariant |results| == k && forall q :: 0 <= q < k ==> results[q] == ToResult(fetched[q])
    {
      results := results + [ToResult(fetched[k])];
    }
  }

  /** A row is kept exactly when it passes every filter given, and the
      kept rows keep their rank order. */
  lemma FilteredSpec(rows: seq<FtsRow>, protocolIds: seq<string>, sectionTypes: seq<string>)
    ensures forall row :: row in Filtered(rows, protocolIds, sectionTypes) <==> row in rows && Passes(row, protocolIds, sectionTypes)
  {
    WhereSpec(rows, row => Passes(row, protocolIds, sectionTypes));
  }

  /** Results pass the filters, number at most `limit` (when the limit is
      not negative) and have non-negative scores. */
  lemma SearchBounds(rows: seq<FtsRow>, limit: int, protocolIds: seq<string>, sectionTypes: seq<string>)
    ensures var fetched := Fetched(rows, limit, protocolIds, sectionTypes);
      (limit >= 0 ==> |fetched| <= limit)
      && (forall k :: 0 <= k < |fetched| ==>
            fetched[k] in rows && Passes(fetched[k], protocolIds, sectionTypes) && ToResult(fetched[k]).score >= 0.0)
  {
    var f := Filtered(rows, protocolIds, sectionTypes);
    FilteredSpec(rows, protocolIds, sectionTypes);
    var fetched := Fetched(rows, limit, protocolIds, sectionTypes);
    forall k | 0 <= k < |fetched|
      ensures fetched[k] in rows && Passes(fetched[k], protocolIds, sectionTypes)
    {
      assert fetched[k] == f[k];
      assert f[k] in f;
    }
  }
}
