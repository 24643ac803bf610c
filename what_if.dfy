/** What-if analysis of one protocol: the scenario is classified by an
    ordered keyword table, the classification chooses the section types the
    search is restricted to, the criteria rows of the criterion chunks a
    second search finds are collected, and the results and criteria are
    laid out as the context handed to the language model. */
module WhatIf {
  import opened Wrappers
  import opened Text
  import opened Keywords
  import Titles
  import Store
  import Hybrid

  // ---------------------------------------------------------------------
  // `_classify_scenario`

  /** The scenario terms in the order they are checked, with the type each
      row selects. */
  const ScenarioTable: seq<(string, seq<string>)> := [
    ("eligibility", ["eligible", "qualify", "criteria", "patient has", "history of", "diagnosis"]),
    ("safety", ["adverse", "side effect", "safety", "toxicity", "reaction"]),
    ("dosing", ["dose", "dosing", "schedule", "frequency", "mg", "modify"]),
    ("procedure", ["visit", "miss", "appointment", "procedure", "skip"]),
    ("discontinuation", ["withdraw", "discontinue", "stop", "terminate"])]

  /** The type of a scenario: that of the first row with a term occurring
      in the lower-cased scenario, or "general". */
  function ClassifyScenario(scenario: string): (r: string)
    ensures r == "general" || r in Labels(ScenarioTable)
  {
    FirstMatchIsLabel(Lower(scenario), ScenarioTable);
    match FirstMatch(Lower(scenario), ScenarioTable)
    case Some(t) => t
    case None => "general"
  }

  /** "general" exactly when no term occurs; otherwise the type of the first
      row with a term in the scenario, so the rows are tried in the order
      eligibility, safety, dosing, procedure, discontinuation. */
  lemma ClassifyScenarioFirstMatch(scenario: string, k: nat)
    requires k < |ScenarioTable|
    ensures ClassifyScenario(scenario) == "general" <==> NoRowMatches(Lower(scenario), ScenarioTable)
    ensures FirstRowMatching(Lower(scenario), ScenarioTable, k) ==> ClassifyScenario(scenario) == ScenarioTable[k].0
  {
    FirstMatchNone(Lower(scenario), ScenarioTable);
    if FirstRowMatching(Lower(scenario), ScenarioTable, k) {
      FirstMatchRow(Lower(scenario), ScenarioTable, k);
    }
  }

  /** An eligibility term wins over every other term: "What if a patient
      has a dose change" is an eligibility question. */
  lemma EligibilityTermWins(scenario: string, t: nat, at: nat)
    requires t < |ScenarioTable[0].1| && OccursAt(Lower(scenario), ScenarioTable[0].1[t], at)
    ensures ClassifyScenario(scenario) == "eligibility"
  {
    TermSelectsRow(Lower(scenario), ScenarioTable, 0, t, at);
  }

  // ---------------------------------------------------------------------
  // `_get_relevant_sections`

  /** The section types searched for each scenario type; "general" has no
      entry, so its search is not restricted. */
  const SectionMap: map<string, seq<string>> := map[
    "eligibility" := ["inclusion_criteria", "exclusion_criteria", "population"],
    "safety" := ["safety", "assessments", "treatment"],
    "dosing" := ["treatment", "study_design", "safety"],
    "procedure" := ["assessments", "study_design", "administration"],
    "discontinuation" := ["treatment", "safety", "administration"]]

  /** `mapping.get(scenario_type)`: None for "general" and for any type the
      mapping does not list. Every scenario type of the classification
      restricts the search to three section types, each a type the section
      detection of the parsers can assign. */
  function RelevantSections(scenarioType: string): (r: Option<seq<string>>)
    ensures r.Some? <==> scenarioType in Labels(ScenarioTable)
    ensures r.Some? ==> |r.value| == 3 && forall s :: s in r.value ==> s in Labels(Titles.SectionTypeTable)
  {
    var labels := Labels(Titles.SectionTypeTable);
    assert labels[0] == "inclusion_criteria" && labels[1] == "exclusion_criteria" && labels[2] == "population";
    assert labels[5] == "study_design" && labels[6] == "treatment" && labels[7] == "assessments";
    assert labels[8] == "safety" && labels[12] == "administration";
    var types := Labels(ScenarioTable);
    assert types == ["eligibility", "safety", "dosing", "procedure", "discontinuation"];
    if scenarioType in SectionMap then Some(SectionMap[scenarioType]) else None
  }

  // ---------------------------------------------------------------------
  // The two searches of an analysis

  /** The arguments of a `HybridSearch.search` call; an empty
      `sectionTypes` list is no restriction, as `None` is. */
  datatype SearchRequest = SearchRequest(query: string, limit: int, protocolIds: seq<string>, sectionTypes: seq<string>)

  /** The search of `analyze`: fifteen results from the protocol, in the
      section types of the scenario's type. */
  function AnalysisSearch(scenario: string, protocolId: string): (r: SearchRequest)
    ensures r.query == scenario && r.limit == 15 && r.protocolIds == [protocolId]
    ensures r.sectionTypes == [] <==> ClassifyScenario(scenario) == "general"
  {
    assert "general" !in Labels(ScenarioTable);
    var sections := RelevantSections(ClassifyScenario(scenario));
    SearchRequest(scenario, 15, [protocolId], if sections.Some? then sections.value else [])
  }

  /** The search of `_find_affected_criteria`: ten results from the
      protocol's two criteria section types. */
  function CriteriaSearch(scenario: string, protocolId: string): (r: SearchRequest)
    ensures r.query == scenario && r.limit == 10 && r.protocolIds == [protocolId]
    ensures r.sectionTypes != [] && forall s :: s in r.sectionTypes ==> s in Labels(Titles.SectionTypeTable)
  {
    var labels := Labels(Titles.SectionTypeTable);
    assert labels[0] == "inclusion_criteria" && labels[1] == "exclusion_criteria";
    SearchRequest(scenario, 10, [protocolId], ["inclusion_criteria", "exclusion_criteria"])
  }

  // ---------------------------------------------------------------------
  // `_find_affected_criteria`

  function OfChunk(chunkId: int): Store.CriterionRow -> bool {
    (c: Store.CriterionRow) => c.chunkId == Some(chunkId)
  }

  /** `SELECT * FROM eligibility_criteria WHERE chunk_id = ?` with
      `fetchone`: the first such row in rowid order. */
  function CriterionOfChunk(t: Store.Tables, chunkId: int): Option<Store.CriterionRow> {
    Store.Fetch(t.criteria, OfChunk(chunkId))
  }

  /** The criteria rows found for the first `n` results, in result order. */
  function Affected(t: Store.Tables, results: seq<Hybrid.SearchResult>, n: nat): seq<Store.CriterionRow>
    requires n <= |results|
  {
    if n == 0 then []
    else
      var found := CriterionOfChunk(t, results[n - 1].chunkId);
      Affected(t, results, n - 1) + (if found.Some? then [found.value] else [])
  }

  /** What `_find_affected_criteria` returns when the criteria search
      yields `results`: nothing for a protocol no document has. */
  function AffectedCriteria(t: Store.Tables, protocolId: string, results: seq<Hybrid.SearchResult>): (r: seq<Store.CriterionRow>)
    ensures |r| <= |results|
    ensures forall c :: c in r ==> c in t.criteria
    ensures Store.DocumentByProtocolId(t, protocolId).None? ==> r == []
  {
    AffectedSpec(t, results, |results|);
    if Store.DocumentByProtocolId(t, protocolId).None? then [] else Affected(t, results, |results|)
  }

  /** Each criteria row found belongs to one of the first `n` results' chunks,
      there is at most one per result, and a result whose chunk has a
      criteria row contributes the first such row. */
  lemma {:induction false} AffectedSpec(t: Store.Tables, results: seq<Hybrid.SearchResult>, n: nat)
    requires n <= |results|
    ensures |Affected(t, results, n)| <= n
    ensures forall c :: c in Affected(t, results, n) ==>
      c in t.criteria && exists j :: 0 <= j < n && c.chunkId == Some(results[j].chunkId)
    ensures forall j :: 0 <= j < n && CriterionOfChunk(t, results[j].chunkId).Some? ==>
      CriterionOfChunk(t, results[j].chunkId).value in Affected(t, results, n)
  {
    if n > 0 {
      AffectedSpec(t, results, n - 1);
      var prev := Affected(t, results, n - 1);
      var found := CriterionOfChunk(t, results[n - 1].chunkId);
      var r := Affected(t, results, n);
      assert r == prev + (if found.Some? then [found.value] else []);
      forall c | c in r
        ensures c in t.criteria && exists j :: 0 <= j < n && c.chunkId == Some(results[j].chunkId)
      {
        if c !in prev {
          assert OfChunk(results[n - 1].chunkId)(c);
        }
      }
    }
  }

  /** `_find_affected_criteria`, given the rows of the database and the
      results of its criteria search. */
  method FindAffectedCriteria(t: Store.Tables, protocolId: string, results: seq<Hybrid.SearchResult>)
    returns (affected: seq<Store.CriterionRow>)
    ensures affected == AffectedCriteria(t, protocolId, results)
    ensures Store.DocumentByProtocolId(t, protocolId).None? ==> affected == []
  {
    var doc := Store.DocumentByProtocolId(t, protocolId);
    if doc.None? {
      return [];
    }
    affected := [];
    var i := 0;
    while i < |results|
      invariant 0 <= i <= |results|
      invariant affected == Affected(t, results, i)
    {
      var row := CriterionOfChunk(t, results[i].chunkId);
      if row.Some? {
        affected := affected + [row.value];
      }
      i := i + 1;
    }
  }

  // ---------------------------------------------------------------------
  // `_build_context`

  const ResultsHeader := "## Relevant Protocol Sections\n"
  const CriteriaHeader := "\n## Potentially Affected Eligibility Criteria\n"

  /** `result.section_type or "Unknown Section"`. */
  function SectionLabel(sectionType: Option<string>): string {
    if sectionType.Some? && sectionType.value != "" then sectionType.value else "Unknown Section"
  }

  /** Python `str(n)` for any integer. */
  function IntString(n: int): string {
    if n < 0 then "-" + Titles.DecimalString(-n) else Titles.DecimalString(n)
  }

  /** The criterion number as the f-string prints it: the column is always
      present in the row, so a NULL number prints as "None". */
  function NumberText(number: Option<int>): string {
    if number.Some? then IntString(number.value) else "None"
  }

  /** "Inclusion" exactly for the type "inclusion", "Exclusion" for every
      other type. */
  function TypeLabel(criterionType: string): (r: string)
    ensures r == "Inclusion" <==> criterionType == "inclusion"
    ensures r == "Inclusion" || r == "Exclusion"
  {
    if criterionType == "inclusion" then "Inclusion" else "Exclusion"
  }

  /** The part for the `i`-th result, counting from 1. */
  function ResultPart(i: nat, r: Hybrid.SearchResult): string {
    "### " + Titles.DecimalString(i) + ". " + SectionLabel(r.sectionType) + "\n" + r.chunkText + "\n"
  }

  /** The part for one criteria row. */
  function CriterionPart(c: Store.CriterionRow): string {
    "- **" + TypeLabel(c.criterionType) + " #" + NumberText(c.criterionNumber) + "**: " + c.criterionText
  }

  /** The parts of the first `n` results. */
  function ResultParts(results: seq<Hybrid.SearchResult>, n: nat): (r: seq<string>)
    requires n <= |results|
    ensures |r| == n
    ensures forall k :: 0 <= k < n ==> r[k] == ResultPart(k + 1, results[k])
  {
    seq(n, k requires 0 <= k < n => ResultPart(k + 1, results[k]))
  }

  /** The parts of the first `n` criteria rows. */
  function CriterionParts(criteria: seq<Store.CriterionRow>, n: nat): (r: seq<string>)
    requires n <= |criteria|
    ensures |r| == n
    ensures forall k :: 0 <= k < n ==> r[k] == CriterionPart(criteria[k])
  {
    seq(n, k requires 0 <= k < n => CriterionPart(criteria[k]))
  }

  /** The `parts` list: a header and one part per result when there are
      results, then a header and one part per criterion when there are
      criteria. */
  function ContextParts(results: seq<Hybrid.SearchResult>, criteria: seq<Store.CriterionRow>): seq<string> {
    (if results == [] then [] else [ResultsHeader] + ResultParts(results, |results|))
    + (if criteria == [] then [] else [CriteriaHeader] + CriterionParts(criteria, |criteria|))
  }

  /** The context: the parts joined by newlines. It is empty exactly when
      there are neither results nor criteria; otherwise it opens with the
      header of the first group. */
  function Context(results: seq<Hybrid.SearchResult>, criteria: seq<Store.CriterionRow>): (r: string)
    ensures r == "" <==> results == [] && criteria == []
    ensures results != [] ==> StartsWith(r, ResultsHeader)
    ensures results == [] && criteria != [] ==> StartsWith(r, CriteriaHeader)
  {
    var parts := ContextParts(results, criteria);
    if parts != [] then
      JoinStartsWith("\n", parts);
      assert parts[0] == if results != [] then ResultsHeader else CriteriaHeader;
      Join("\n", parts)
    else
      Join("\n", parts)
  }

  /** Joining keeps the first part at the front. */
  lemma JoinStartsWith(sep: string, parts: seq<string>)
    requires parts != []
    ensures StartsWith(Join(sep, parts), parts[0])
  {
    if |parts| > 1 {
      assert Join(sep, parts) == parts[0] + (sep + Join(sep, parts[1..]));
    }
  }

  /** Every part occurs in the joined string. */
  lemma {:induction false} JoinContainsPart(sep: string, parts: seq<string>, k: nat)
    requires k < |parts|
    ensures Contains(Join(sep, parts), parts[k])
    decreases k
  {
    var s := Join(sep, parts);
    if k == 0 {
      JoinStartsWith(sep, parts);
      assert OccursAt(s, parts[0], 0);
    } else {
      var rest := parts[1..];
      JoinContainsPart(sep, rest, k - 1);
      var i :| 0 <= i <= |Join(sep, rest)| - |rest[k - 1]| && OccursAt(Join(sep, rest), rest[k - 1], i);
      var offset := |parts[0] + sep|;
      assert s == (parts[0] + sep) + Join(sep, rest);
      assert s[offset + i..offset + i + |parts[k]|] == Join(sep, rest)[i..i + |rest[k - 1]|];
      assert OccursAt(s, parts[k], offset + i);
    }
  }

  /** Every result, numbered from 1 with its section, and every criterion,
      labelled with its type and number, occur in the context. */
  lemma ContextMentions(results: seq<Hybrid.SearchResult>, criteria: seq<Store.CriterionRow>)
    ensures forall k :: 0 <= k < |results| ==> Contains(Context(results, criteria), ResultPart(k + 1, results[k]))
    ensures forall k :: 0 <= k < |criteria| ==> Contains(Context(results, criteria), CriterionPart(criteria[k]))
  {
    forall k | 0 <= k < |results| ensures Contains(Context(results, criteria), ResultPart(k + 1, results[k])) {
      ResultMentioned(results, criteria, k);
    }
    forall k | 0 <= k < |criteria| ensures Contains(Context(results, criteria), CriterionPart(criteria[k])) {
      CriterionMentioned(results, criteria, k);
    }
  }

  lemma ResultMentioned(results: seq<Hybrid.SearchResult>, criteria: seq<Store.CriterionRow>, k: nat)
    requires k < |results|
    ensures Contains(Context(results, criteria), ResultPart(k + 1, results[k]))
  {
    var parts := ContextParts(results, criteria);
    assert parts[1 + k] == ResultPart(k + 1, results[k]);
    JoinContainsPart("\n", parts, 1 + k);
  }

  lemma CriterionMentioned(results: seq<Hybrid.SearchResult>, criteria: seq<Store.CriterionRow>, k: nat)
    requires k < |criteria|
    ensures Contains(Context(results, criteria), CriterionPart(criteria[k]))
  {
    var parts := ContextParts(results, criteria);
    var before := if results == [] then 0 else 1 + |results|;
    assert parts[before + 1 + k] == CriterionPart(criteria[k]);
    JoinContainsPart("\n", parts, before + 1 + k);
  }

  /** `_build_context`. */
  method BuildContext(results: seq<Hybrid.SearchResult>, criteria: seq<Store.CriterionRow>) returns (context: string)
    ensures context == Context(results, criteria)
  {
    var parts: seq<string> := [];
    if |results| > 0 {
      var resultParts := NumberResults(results);
      parts := [ResultsHeader] + resultParts;
    }
    if |criteria| > 0 {
      var criterionParts := LabelCriteria(criteria);
      parts := parts + ([CriteriaHeader] + criterionParts);
    } else {
      assert parts + [] == parts;
    }
    context := Join("\n", parts);
  }

  /** The loop over the results in `_build_context`, numbering from 1. */
  method NumberResults(results: seq<Hybrid.SearchResult>) returns (parts: seq<string>)
    ensures parts == ResultParts(results, |results|)
  {
    parts := [];
    var i := 0;
    while i < |results|
      invariant 0 <= i <= |results|
      invariant parts == ResultParts(results, i)
    {
      parts := parts + [ResultPart(i + 1, results[i])];
      i := i + 1;
    }
  }

  /** The loop over the criteria in `_build_context`. */
  method LabelCriteria(criteria: seq<Store.CriterionRow>) returns (parts: seq<string>)
    ensures parts == CriterionParts(criteria, |criteria|)
  {
    parts := [];
    var j := 0;
    while j < |criteria|
      invariant 0 <= j <= |criteria|
      invariant parts == CriterionParts(criteria, j)
    {
      parts := parts + [CriterionPart(criteria[j])];
      j := j + 1;
    }
  }

  // ---------------------------------------------------------------------
  // `analyze`

  /** `_result_to_dict`. */
  datatype ChunkSummary = ChunkSummary(chunkId: int, sectionType: Option<string>, chunkText: string, score: real)

  /** `WhatIfResult`. */
  datatype WhatIfResult = WhatIfResult(
    scenario: string, protocolId: string, analysis: string,
    relevantChunks: seq<ChunkSummary>, affectedCriteria: seq<Store.CriterionRow>)

  function Summary(r: Hybrid.SearchResult): ChunkSummary {
    ChunkSummary(r.chunkId, r.sectionType, r.chunkText, r.score)
  }

  /** `[self._result_to_dict(r) for r in search_results[:5]]`. */
  function TopSummaries(results: seq<Hybrid.SearchResult>): (r: seq<ChunkSummary>)
    ensures |r| == if |results| < 5 then |results| else 5
    ensures forall k :: 0 <= k < |r| ==> r[k] == Summary(results[k])
  {
    var n := if |results| < 5 then |results| else 5;
    seq(n, k requires 0 <= k < n => Summary(results[k]))
  }

  /** `analyze`, given the rows of the database, the hybrid search as a
      function of its arguments and the language model as a function of the
      question and the context. The report carries the first five results
      of the scenario search, the criteria rows of the criteria search, and
      the model's answer about the context built from all of them. */
  method Analyze(t: Store.Tables, scenario: string, protocolId: string,
                 search: SearchRequest -> seq<Hybrid.SearchResult>, llm: (string, string) -> string)
    returns (r: WhatIfResult)
    ensures var results := search(AnalysisSearch(scenario, protocolId));
      var affected := AffectedCriteria(t, protocolId, search(CriteriaSearch(scenario, protocolId)));
      && r.scenario == scenario && r.protocolId == protocolId
      && r.relevantChunks == TopSummaries(results)
      && r.affectedCriteria == affected
      && r.analysis == llm("What if " + scenario + "?", Context(results, affected))
  {
    var results := search(AnalysisSearch(scenario, protocolId));
    var criteriaResults := search(CriteriaSearch(scenario, protocolId));
    var affected := FindAffectedCriteria(t, protocolId, criteriaResults);
    var context := BuildContext(results, affected);
    var analysis := llm("What if " + scenario + "?", context);
    r := WhatIfResult(scenario, protocolId, analysis, TopSummaries(results), affected);
  }
}
