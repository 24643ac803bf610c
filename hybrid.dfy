/** Hybrid search: the lexical and the vector result lists fused by
    Reciprocal Rank Fusion. A chunk's fused score is the sum, over the lists
    that hold it, of `1 / (RRF_K + rank)` with 1-based ranks; the fused list
    is sorted by that score, cut to `limit`, and each entry is labelled with
    the list it came from, or "hybrid" when it came from both. */
module Hybrid {
  import opened Wrappers
  import opened Sorting
  import Fts
  import Vector

  /** `HybridSearch.RRF_K`. */
  const RrfK: int := 60

  /** Metadata of a chunk, as either list reports it. */
  datatype ChunkData = ChunkData(chunkId: int, documentId: int, protocolId: Option<string>,
                                 chunkText: string, sectionType: Option<string>)

  /** `SearchResult`. */
  datatype SearchResult = SearchResult(chunkId: int, documentId: int, protocolId: Option<string>,
                                       chunkText: string, sectionType: Option<string>, score: real,
                                       source: string)

  function FtsData(r: Fts.FtsResult): ChunkData {
    ChunkData(r.chunkId, r.documentId, r.protocolId, r.chunkText, r.sectionType)
  }

  function VectorData(r: Vector.VectorResult): ChunkData {
    ChunkData(r.chunkId, r.documentId, r.protocolId, r.chunkText, r.sectionType)
  }

  function FtsId(r: Fts.FtsResult): int {
    r.chunkId
  }

  function VectorId(r: Vector.VectorResult): int {
    r.chunkId
  }

  /** `[r.chunk_id for r in results]`: the chunk ids of a result list, in
      rank order. */
  function Ids<T>(rs: seq<T>, chunkId: T -> int): (ids: seq<int>)
    ensures |ids| == |rs| && forall k :: 0 <= k < |rs| ==> ids[k] == chunkId(rs[k])
  {
    seq(|rs|, k requires 0 <= k < |rs| => chunkId(rs[k]))
  }

  // ---------------------------------------------------------------------
  // Ranks and scores

  /** `{id: i + 1 for i, id in enumerate(ids)}`: each id's 1-based position,
      the last occurrence winning. */
  function Ranks(ids: seq<int>): (m: map<int, nat>)
    ensures forall id :: id in m <==> id in ids
    ensures forall id :: id in m ==> 1 <= m[id] <= |ids| && ids[m[id] - 1] == id
    decreases |ids|
  {
    if ids == [] then map[]
    else
      var m := Ranks(ids[..|ids| - 1]);
      assert forall id :: id in ids <==> id in ids[..|ids| - 1] || id == ids[|ids| - 1] by {
        assert ids == ids[..|ids| - 1] + [ids[|ids| - 1]];
      }
      m[ids[|ids| - 1] := |ids|]
  }

  /** No later position holds the id: its rank is its last occurrence. */
  lemma {:induction false} RanksLast(ids: seq<int>, id: int, j: int)
    requires id in Ranks(ids) && Ranks(ids)[id] <= j < |ids|
    ensures ids[j] != id
    decreases |ids|
  {
    var init := ids[..|ids| - 1];
    if ids[|ids| - 1] != id && j < |ids| - 1 {
      assert id in init;
      RanksLast(init, id, j);
    }
  }

  /** One list's share of a chunk's fused score. */
  function Share(ranks: map<int, nat>, id: int): (s: real)
    ensures id !in ranks ==> s == 0.0
    ensures id in ranks ==> s > 0.0 && s * ((RrfK + ranks[id]) as real) == 1.0
  {
    if id in ranks then 1.0 / ((RrfK + ranks[id]) as real) else 0.0
  }

  /** The fused score. */
  function RrfScore(id: int, fr: map<int, nat>, vr: map<int, nat>): (r: real)
    ensures r >= 0.0
    ensures r > 0.0 <==> id in fr || id in vr
  {
    Share(fr, id) + Share(vr, id)
  }

  /** `key=lambda x: rrf_scores[x][0]`. */
  function ScoreKey(fr: map<int, nat>, vr: map<int, nat>): int -> real {
    (id: int) => RrfScore(id, fr, vr)
  }

  /** The lists contributing to a chunk, lexical first. */
  function Sources(id: int, fr: map<int, nat>, vr: map<int, nat>): seq<string> {
    (if id in fr then ["fts"] else []) + (if id in vr then ["vector"] else [])
  }

  function Label(sources: seq<string>): string
    requires sources != []
  {
    if |sources| > 1 then "hybrid" else sources[0]
  }

  // ---------------------------------------------------------------------
  // Chunk metadata

  /** `chunk_data` after the lexical loop: every lexical entry written in
      turn, so the last one for an id stays. */
  function LexicalData(fts: seq<Fts.FtsResult>): (m: map<int, ChunkData>)
    ensures forall id :: id in m <==> id in Ids(fts, FtsId)
    ensures forall id :: id in m ==> m[id].chunkId == id
    decreases |fts|
  {
    if fts == [] then map[]
    else
      var init := fts[..|fts| - 1];
      assert Ids(fts, FtsId) == Ids(init, FtsId) + [fts[|fts| - 1].chunkId];
      LexicalData(init)[fts[|fts| - 1].chunkId := FtsData(fts[|fts| - 1])]
  }

  /** `chunk_data` after the vector loop: a vector entry only fills an id
      that has no metadata yet. */
  function ChunkMetadata(fts: seq<Fts.FtsResult>, vec: seq<Vector.VectorResult>): (m: map<int, ChunkData>)
    ensures forall id :: id in m <==> id in Ids(fts, FtsId) || id in Ids(vec, VectorId)
    ensures forall id :: id in m ==> m[id].chunkId == id
    decreases |vec|
  {
    if vec == [] then LexicalData(fts)
    else
      var init := vec[..|vec| - 1];
      var last := vec[|vec| - 1];
      assert Ids(vec, VectorId) == Ids(init, VectorId) + [last.chunkId];
      var m := ChunkMetadata(fts, init);
      if last.chunkId in m then m else m[last.chunkId := VectorData(last)]
  }

  // ---------------------------------------------------------------------
  // The fused list

  function AllIds(fts: seq<Fts.FtsResult>, vec: seq<Vector.VectorResult>): set<int> {
    Ranks(Ids(fts, FtsId)).Keys + Ranks(Ids(vec, VectorId)).Keys
  }

  /** The ids of `s`, each once, in order of first occurrence. */
  function Dedupe(s: seq<int>): (r: seq<int>)
    ensures Distinct(r)
    ensures forall x :: x in r <==> x in s
    decreases |s|
  {
    if s == [] then []
    else
      var d := Dedupe(s[..|s| - 1]);
      assert forall x :: x in s <==> x in s[..|s| - 1] || x == s[|s| - 1] by {
        assert s == s[..|s| - 1] + [s[|s| - 1]];
      }
      if s[|s| - 1] in d then d else d + [s[|s| - 1]]
  }

  /** `all_chunk_ids`, enumerated lexical ids first. */
  function DistinctIds(fts: seq<Fts.FtsResult>, vec: seq<Vector.VectorResult>): (r: seq<int>)
    ensures Distinct(r)
    ensures forall id :: id in r <==> id in AllIds(fts, vec)
  {
    Dedupe(Ids(fts, FtsId) + Ids(vec, VectorId))
  }

  /** One fused entry. */
  function Entry(id: int, fts: seq<Fts.FtsResult>, vec: seq<Vector.VectorResult>): SearchResult
    requires id in AllIds(fts, vec)
  {
    var fr, vr := Ranks(Ids(fts, FtsId)), Ranks(Ids(vec, VectorId));
    var data := ChunkMetadata(fts, vec)[id];
    SearchResult(data.chunkId, data.documentId, data.protocolId, data.chunkText, data.sectionType,
                 RrfScore(id, fr, vr), Label(Sources(id, fr, vr)))
  }

  /** A fused entry carries its chunk's key and fused score, and is labelled
      by the lists that hold the chunk. */
  lemma EntrySpec(id: int, fts: seq<Fts.FtsResult>, vec: seq<Vector.VectorResult>)
    requires id in AllIds(fts, vec)
    ensures var r := Entry(id, fts, vec);
      && r.chunkId == id
      && r.score == RrfScore(id, Ranks(Ids(fts, FtsId)), Ranks(Ids(vec, VectorId)))
      && (r.source == "hybrid" <==> id in Ids(fts, FtsId) && id in Ids(vec, VectorId))
      && (r.source == "fts" <==> id in Ids(fts, FtsId) && id !in Ids(vec, VectorId))
      && (r.source == "vector" <==> id !in Ids(fts, FtsId) && id in Ids(vec, VectorId))
  {
  }

  /** `sorted_ids[:limit]` for one enumeration `order` of the ids. */
  function Top(order: seq<int>, fts: seq<Fts.FtsResult>, vec: seq<Vector.VectorResult>, limit: int): seq<int> {
    PyPrefix(SortDesc(order, ScoreKey(Ranks(Ids(fts, FtsId)), Ranks(Ids(vec, VectorId)))), limit)
  }

  /** The fused entries of `ids`, in order. */
  function Entries(ids: seq<int>, fts: seq<Fts.FtsResult>, vec: seq<Vector.VectorResult>): (r: seq<SearchResult>)
    requires forall id :: id in ids ==> id in AllIds(fts, vec)
    ensures |r| == |ids|
    decreases |ids|
  {
    if ids == [] then []
    else
      PrefixMembers(ids, |ids| - 1);
      Entries(ids[..|ids| - 1], fts, vec) + [Entry(ids[|ids| - 1], fts, vec)]
  }

  /** The ids of a prefix are ids of the whole list. */
  lemma PrefixMembers<T>(s: seq<T>, n: nat)
    requires n <= |s|
    ensures forall x :: x in s[..n] ==> x in s
  {
    forall x | x in s[..n] ensures x in s {
      var k :| 0 <= k < n && s[..n][k] == x;
      assert s[k] == x;
    }
  }

  lemma EntriesAt(ids: seq<int>, fts: seq<Fts.FtsResult>, vec: seq<Vector.VectorResult>)
    requires forall id :: id in ids ==> id in AllIds(fts, vec)
    ensures forall i :: 0 <= i < |ids| ==> Entries(ids, fts, vec)[i] == Entry(ids[i], fts, vec)
    decreases |ids|
  {
    forall i | 0 <= i < |ids| ensures Entries(ids, fts, vec)[i] == Entry(ids[i], fts, vec) {
      EntryAt(ids, i, fts, vec);
    }
  }

  lemma {:induction false} EntryAt(ids: seq<int>, i: nat, fts: seq<Fts.FtsResult>, vec: seq<Vector.VectorResult>)
    requires i < |ids| && forall id :: id in ids ==> id in AllIds(fts, vec)
    ensures Entries(ids, fts, vec)[i] == Entry(ids[i], fts, vec)
    decreases |ids|
  {
    if i < |ids| - 1 {
      var init := ids[..|ids| - 1];
      PrefixMembers(ids, |ids| - 1);
      EntryAt(init, i, fts, vec);
      assert ids[i] == init[i];
    }
  }

  /** The fused list for one enumeration `order` of the ids: sorted by fused
      score, highest first, and cut to `limit`. */
  function Fused(order: seq<int>, fts: seq<Fts.FtsResult>, vec: seq<Vector.VectorResult>, limit: int)
    : (r: seq<SearchResult>)
    requires forall id :: id in order ==> id in AllIds(fts, vec)
    ensures |r| == |Top(order, fts, vec, limit)|
    ensures forall i :: 0 <= i < |r| ==> Top(order, fts, vec, limit)[i] in AllIds(fts, vec)
    ensures forall i :: 0 <= i < |r| ==> r[i] == Entry(Top(order, fts, vec, limit)[i], fts, vec)
  {
    PrefixIn(SortDesc(order, ScoreKey(Ranks(Ids(fts, FtsId)), Ranks(Ids(vec, VectorId)))), limit, order);
    EntriesAt(Top(order, fts, vec, limit), fts, vec);
    Entries(Top(order, fts, vec, limit), fts, vec)
  }

  lemma PrefixIn(s: seq<int>, n: int, order: seq<int>)
    requires multiset(s) == multiset(order)
    ensures forall id :: id in PyPrefix(s, n) ==> id in order
  {
    forall id | id in PyPrefix(s, n) ensures id in order {
      assert id in multiset(s);
    }
  }

  /** `len(ids[:limit])` for a list of `n` ids. */
  function PyLength(n: nat, limit: int): nat {
    if limit >= 0 then (if limit < n then limit else n)
    else if n + limit > 0 then n + limit else 0
  }

  /** Each entry is the fused entry of one of the chunks. */
  ghost predicate FusedEntries(fts: seq<Fts.FtsResult>, vec: seq<Vector.VectorResult>, results: seq<SearchResult>) {
    forall i :: 0 <= i < |results| ==>
      results[i].chunkId in AllIds(fts, vec) && results[i] == Entry(results[i].chunkId, fts, vec)
  }

  /** One entry per chunk at most, highest score first. */
  ghost predicate FusedOrdered(results: seq<SearchResult>) {
    forall i, j :: 0 <= i < j < |results| ==>
      results[i].chunkId != results[j].chunkId && results[i].score >= results[j].score
  }

  ghost predicate Omitted(id: int, results: seq<SearchResult>) {
    forall k :: 0 <= k < |results| ==> results[k].chunkId != id
  }

  /** No chunk left out scores above a chunk kept. */
  ghost predicate FusedTop(fts: seq<Fts.FtsResult>, vec: seq<Vector.VectorResult>, results: seq<SearchResult>) {
    forall id, i :: id in AllIds(fts, vec) && Omitted(id, results) && 0 <= i < |results| ==>
      results[i].score >= RrfScore(id, Ranks(Ids(fts, FtsId)), Ranks(Ids(vec, VectorId)))
  }

  /** What fusion promises: the fused list has `min(limit, |ids|)` entries,
      one per chunk at most, sorted by fused score; each entry is the fused
      entry of its chunk; and no chunk left out scores above any chunk kept. */
  ghost predicate IsFusion(fts: seq<Fts.FtsResult>, vec: seq<Vector.VectorResult>, limit: int,
                           results: seq<SearchResult>)
    ensures IsFusion(fts, vec, limit, results) ==> |results| <= |DistinctIds(fts, vec)|
    ensures IsFusion(fts, vec, limit, results) && limit >= 0 ==> |results| <= limit
  {
    |results| == PyLength(|DistinctIds(fts, vec)|, limit)
    && FusedEntries(fts, vec, results) && FusedOrdered(results) && FusedTop(fts, vec, results)
  }

  lemma FusedOrderedSpec(order: seq<int>, fts: seq<Fts.FtsResult>, vec: seq<Vector.VectorResult>, limit: int)
    requires Distinct(order)
    requires forall id :: id in order ==> id in AllIds(fts, vec)
    ensures FusedOrdered(Fused(order, fts, vec, limit))
  {
    var key := ScoreKey(Ranks(Ids(fts, FtsId)), Ranks(Ids(vec, VectorId)));
    var sorted := SortDesc(order, key);
    var top := Top(order, fts, vec, limit);
    var r := Fused(order, fts, vec, limit);
    TopDesc(order, key, limit);
    DistinctPermutation(order, sorted);
    forall i, j | 0 <= i < j < |r|
      ensures r[i].chunkId != r[j].chunkId && r[i].score >= r[j].score
    {
      assert top[i] == sorted[i] && top[j] == sorted[j];
      assert key(top[i]) >= key(top[j]);
    }
  }

  lemma FusedTopSpec(order: seq<int>, fts: seq<Fts.FtsResult>, vec: seq<Vector.VectorResult>, limit: int)
    requires forall id :: id in order <==> id in AllIds(fts, vec)
    ensures FusedTop(fts, vec, Fused(order, fts, vec, limit))
  {
    var fr, vr := Ranks(Ids(fts, FtsId)), Ranks(Ids(vec, VectorId));
    var key := ScoreKey(fr, vr);
    var top := Top(order, fts, vec, limit);
    var r := Fused(order, fts, vec, limit);
    forall id, i | id in AllIds(fts, vec) && Omitted(id, r) && 0 <= i < |r|
      ensures r[i].score >= RrfScore(id, fr, vr)
    {
      assert id !in top by {
        forall k | 0 <= k < |top| ensures top[k] != id {
          assert r[k].chunkId == top[k];
        }
      }
      TopDominates(order, key, limit, id);
      assert key(top[i]) >= key(id);
      assert key(id) == RrfScore(id, fr, vr);
      assert r[i].score == key(top[i]);
    }
  }

  /** Fusing over any enumeration of the ids, without repetition, keeps
      every promise of `IsFusion`. */
  lemma FusedSpec(order: seq<int>, fts: seq<Fts.FtsResult>, vec: seq<Vector.VectorResult>, limit: int)
    requires Distinct(order) && |order| == |DistinctIds(fts, vec)|
    requires forall id :: id in order <==> id in AllIds(fts, vec)
    ensures IsFusion(fts, vec, limit, Fused(order, fts, vec, limit))
  {
    FusedOrderedSpec(order, fts, vec, limit);
    FusedTopSpec(order, fts, vec, limit);
    FusedEntriesSpec(order, fts, vec, limit);
    FusedLength(order, fts, vec, limit);
  }

  lemma FusedLength(order: seq<int>, fts: seq<Fts.FtsResult>, vec: seq<Vector.VectorResult>, limit: int)
    requires forall id :: id in order ==> id in AllIds(fts, vec)
    ensures |Fused(order, fts, vec, limit)| == PyLength(|order|, limit)
  {
  }

  lemma FusedEntriesSpec(order: seq<int>, fts: seq<Fts.FtsResult>, vec: seq<Vector.VectorResult>, limit: int)
    requires forall id :: id in order ==> id in AllIds(fts, vec)
    ensures FusedEntries(fts, vec, Fused(order, fts, vec, limit))
  {
    var top := Top(order, fts, vec, limit);
    var r := Fused(order, fts, vec, limit);
    forall i | 0 <= i < |r|
      ensures r[i].chunkId in AllIds(fts, vec) && r[i] == Entry(r[i].chunkId, fts, vec)
    {
      assert r[i] == Entry(top[i], fts, vec);
    }
  }

  // ---------------------------------------------------------------------
  // `_hybrid_search`

  /** The two `chunk_data` loops: lexical entries overwrite, vector entries
      only fill ids not seen yet. */
  method CollectChunkData(fts: seq<Fts.FtsResult>, vec: seq<Vector.VectorResult>)
    returns (chunkData: map<int, ChunkData>)
    ensures chunkData == ChunkMetadata(fts, vec)
  {
    chunkData := map[];
    for i := 0 to |fts|
      invariant chunkData == LexicalData(fts[..i])
    {
      assert fts[..i + 1][..i] == fts[..i];
      chunkData := chunkData[fts[i].chunkId := FtsData(fts[i])];
    }
    assert fts[..|fts|] == fts;
    for i := 0 to |vec|
      invariant chunkData == ChunkMetadata(fts, vec[..i])
    {
      assert vec[..i + 1][..i] == vec[..i];
      if vec[i].chunkId !in chunkData {
        chunkData := chunkData[vec[i].chunkId := VectorData(vec[i])];
      }
    }
    assert vec[..|vec|] == vec;
  }

  /** The `rrf_scores` loop over `all_chunk_ids`: each id, once, gets its
      fused score and its list of sources; `order` is the order the loop
      visits them in. Walking `ids` and skipping ids already scored models
      building the set and iterating it. */
  method ScoreIds(ids: seq<int>, fr: map<int, nat>, vr: map<int, nat>)
    returns (order: seq<int>, rrfScores: map<int, (real, seq<string>)>)
    ensures order == Dedupe(ids)
    ensures forall id :: id in rrfScores <==> id in ids
    ensures forall id :: id in rrfScores ==> rrfScores[id] == (RrfScore(id, fr, vr), Sources(id, fr, vr))
  {
    order, rrfScores := [], map[];
    for i := 0 to |ids|
      invariant order == Dedupe(ids[..i])
      invariant forall id :: id in rrfScores <==> id in ids[..i]
      invariant forall id :: id in rrfScores ==> rrfScores[id] == (RrfScore(id, fr, vr), Sources(id, fr, vr))
    {
      assert ids[..i + 1] == ids[..i] + [ids[i]];
      var chunkId := ids[i];
      if chunkId !in rrfScores {
        var score := 0.0;
        var sources: seq<string> := [];
        if chunkId in fr {
          score := score + 1.0 / ((RrfK + fr[chunkId]) as real);
          sources := sources + ["fts"];
        }
        if chunkId in vr {
          score := score + 1.0 / ((RrfK + vr[chunkId]) as real);
          sources := sources + ["vector"];
        }
        assert score == RrfScore(chunkId, fr, vr);
        assert sources == Sources(chunkId, fr, vr);
        rrfScores := rrfScores[chunkId := (score, sources)];
        order := order + [chunkId];
      }
    }
    assert ids[..|ids|] == ids;
  }

  /** A chunk the fusion sees has metadata. */
  lemma MetadataCovers(fts: seq<Fts.FtsResult>, vec: seq<Vector.VectorResult>, id: int)
    requires id in AllIds(fts, vec)
    ensures id in ChunkMetadata(fts, vec)
  {
  }

  /** One iteration of the final loop builds the chunk's fused entry. */
  lemma EntryFrom(id: int, fts: seq<Fts.FtsResult>, vec: seq<Vector.VectorResult>, score: real,
                  sources: seq<string>, data: ChunkData)
    requires id in AllIds(fts, vec) && id in ChunkMetadata(fts, vec) && data == ChunkMetadata(fts, vec)[id]
    requires score == RrfScore(id, Ranks(Ids(fts, FtsId)), Ranks(Ids(vec, VectorId)))
    requires sources == Sources(id, Ranks(Ids(fts, FtsId)), Ranks(Ids(vec, VectorId)))
    ensures sources != []
    ensures SearchResult(data.chunkId, data.documentId, data.protocolId, data.chunkText, data.sectionType,
                         score, if |sources| > 1 then "hybrid" else sources[0]) == Entry(id, fts, vec)
  {
  }

  /** One more id appends its entry. */
  lemma EntriesStep(ids: seq<int>, k: nat, fts: seq<Fts.FtsResult>, vec: seq<Vector.VectorResult>)
    requires k < |ids| && forall id :: id in ids ==> id in AllIds(fts, vec)
    ensures forall id :: id in ids[..k] ==> id in AllIds(fts, vec)
    ensures Entries(ids[..k + 1], fts, vec) == Entries(ids[..k], fts, vec) + [Entry(ids[k], fts, vec)]
  {
    PrefixMembers(ids, k);
    PrefixMembers(ids, k + 1);
    assert ids[..k + 1][..k] == ids[..k];
  }

  /** The final loop over `sorted_ids[:limit]`. */
  method BuildResults(top: seq<int>, rrfScores: map<int, (real, seq<string>)>, chunkData: map<int, ChunkData>,
                      fts: seq<Fts.FtsResult>, vec: seq<Vector.VectorResult>)
    returns (results: seq<SearchResult>)
    requires forall id :: id in top ==> id in AllIds(fts, vec)
    requires chunkData == ChunkMetadata(fts, vec)
    requires forall id :: id in AllIds(fts, vec) ==> id in rrfScores
    requires forall id :: id in rrfScores ==>
      rrfScores[id] == (RrfScore(id, Ranks(Ids(fts, FtsId)), Ranks(Ids(vec, VectorId))), Sources(id, Ranks(Ids(fts, FtsId)), Ranks(Ids(vec, VectorId))))
    ensures results == Entries(top, fts, vec)
  {
    results := [];
    for k := 0 to |top|
      invariant results == Entries(top[..k], fts, vec)
    {
      EntriesStep(top, k, fts, vec);
      var id := top[k];
      MetadataCovers(fts, vec, id);
      var (score, sources) := rrfScores[id];
      var data := chunkData[id];
      EntryFrom(id, fts, vec, score, sources, data);
      var source := if |sources| > 1 then "hybrid" else sources[0];
      results := results + [SearchResult(data.chunkId, data.documentId, data.protocolId, data.chunkText,
                                         data.sectionType, score, source)];
    }
    assert top[..|top|] == top;
  }

  /** `_hybrid_search` once both lists are fetched. */
  method Fuse(fts: seq<Fts.FtsResult>, vec: seq<Vector.VectorResult>, limit: int)
    returns (results: seq<SearchResult>)
    ensures IsFusion(fts, vec, limit, results)
  {
    var ftsRanks := Ranks(Ids(fts, FtsId));
    var vectorRanks := Ranks(Ids(vec, VectorId));
    var chunkData := CollectChunkData(fts, vec);
    var order, rrfScores := ScoreIds(Ids(fts, FtsId) + Ids(vec, VectorId), ftsRanks, vectorRanks);
    // `rrf_scores[x][0]` is `RrfScore(x, ...)` for every id sorted
    var sortedIds := SortDesc(order, ScoreKey(ftsRanks, vectorRanks));
    var top := PyPrefix(sortedIds, limit);
    PrefixIn(sortedIds, limit, order);
    results := BuildResults(top, rrfScores, chunkData, fts, vec);
    assert results == Fused(order, fts, vec, limit);
    FusedSpec(order, fts, vec, limit);
  }

  // ---------------------------------------------------------------------
  // What fusion promises about scores and metadata

  /** A better (smaller) rank earns a larger share. */
  lemma ShareMonotone(ranks: map<int, nat>, a: int, b: int)
    requires a in ranks && b in ranks && ranks[a] <= ranks[b]
    ensures Share(ranks, a) >= Share(ranks, b)
  {
    InverseAntitone(Share(ranks, a), Share(ranks, b), (RrfK + ranks[a]) as real, (RrfK + ranks[b]) as real);
  }

  /** The inverse of the smaller positive number is the larger. */
  lemma InverseAntitone(p: real, q: real, x: real, y: real)
    requires 0.0 < x <= y && q > 0.0 && p * x == 1.0 && q * y == 1.0
    ensures p >= q
  {
    assert q * x <= q * y;
  }

  /** A chunk found by both searches outscores a chunk found by only one
      of them at a rank no better than its own rank there. */
  lemma BothOutscoreOne(id: int, other: int, fr: map<int, nat>, vr: map<int, nat>)
    requires id in fr && id in vr
    requires (other in fr && other !in vr && fr[id] <= fr[other])
          || (other !in fr && other in vr && vr[id] <= vr[other])
    ensures RrfScore(id, fr, vr) > RrfScore(other, fr, vr)
  {
    if other in fr {
      ShareMonotone(fr, id, other);
    } else {
      ShareMonotone(vr, id, other);
    }
  }

  /** Rank 1 in both lists scores 2/61; rank 1 in one list only, 1/61. */
  lemma TopOfBoth(id: int, other: int, fr: map<int, nat>, vr: map<int, nat>)
    requires id in fr && id in vr && fr[id] == 1 && vr[id] == 1
    requires other in fr && other !in vr && fr[other] == 1
    ensures RrfScore(id, fr, vr) == 2.0 / 61.0
    ensures RrfScore(other, fr, vr) == 1.0 / 61.0
    ensures RrfScore(id, fr, vr) > RrfScore(other, fr, vr)
  {
  }

  /** The position of the first occurrence of `id` in `ids`. */
  function FirstIndex(ids: seq<int>, id: int): (k: nat)
    requires id in ids
    ensures k < |ids| && ids[k] == id
    ensures forall j :: 0 <= j < k ==> ids[j] != id
    decreases |ids|
  {
    var init := ids[..|ids| - 1];
    assert ids == init + [ids[|ids| - 1]];
    if id in init then FirstIndex(init, id) else |ids| - 1
  }

  /** The position of the last occurrence of `id` in `ids`. */
  function LastIndex(ids: seq<int>, id: int): (k: nat)
    requires id in ids
    ensures k < |ids| && ids[k] == id
    ensures forall j :: k < j < |ids| ==> ids[j] != id
    decreases |ids|
  {
    var init := ids[..|ids| - 1];
    assert ids == init + [ids[|ids| - 1]];
    if ids[|ids| - 1] == id then |ids| - 1 else LastIndex(init, id)
  }

  /** An id's rank is one past its last position. */
  lemma RankIsLast(ids: seq<int>, id: int)
    requires id in ids
    ensures Ranks(ids)[id] == LastIndex(ids, id) + 1
  {
  }

  /** The lexical loop leaves each chunk with its last lexical entry. */
  lemma {:induction false} LexicalLast(fts: seq<Fts.FtsResult>, id: int)
    requires id in Ids(fts, FtsId)
    ensures LexicalData(fts)[id] == FtsData(fts[LastIndex(Ids(fts, FtsId), id)])
    decreases |fts|
  {
    var n := |fts|;
    var init := fts[..n - 1];
    assert Ids(fts, FtsId)[..n - 1] == Ids(init, FtsId);
    if fts[n - 1].chunkId != id {
      LexicalLast(init, id);
    }
  }

  /** A chunk in the lexical list takes its metadata from its lexical entry
      at its lexical rank, which is its last entry there. */
  lemma LexicalMetadata(fts: seq<Fts.FtsResult>, id: int)
    requires id in Ids(fts, FtsId)
    ensures LexicalData(fts)[id] == FtsData(fts[Ranks(Ids(fts, FtsId))[id] - 1])
  {
    LexicalLast(fts, id);
    RankIsLast(Ids(fts, FtsId), id);
  }

  /** Vector entries never override lexical metadata. */
  lemma {:induction false} LexicalWins(fts: seq<Fts.FtsResult>, vec: seq<Vector.VectorResult>, id: int)
    requires id in Ids(fts, FtsId)
    ensures ChunkMetadata(fts, vec)[id] == LexicalData(fts)[id]
    decreases |vec|
  {
    if vec != [] {
      LexicalWins(fts, vec[..|vec| - 1], id);
    }
  }

  /** A chunk only the vector search found takes its metadata from its
      first vector entry. */
  lemma {:induction false} VectorMetadata(fts: seq<Fts.FtsResult>, vec: seq<Vector.VectorResult>, id: int)
    requires id !in Ids(fts, FtsId) && id in Ids(vec, VectorId)
    ensures ChunkMetadata(fts, vec)[id] == VectorData(vec[FirstIndex(Ids(vec, VectorId), id)])
    decreases |vec|
  {
    var n := |vec|;
    var init := vec[..n - 1];
    assert Ids(vec, VectorId)[..n - 1] == Ids(init, VectorId);
    if id in Ids(init, VectorId) {
      VectorMetadata(fts, init, id);
      assert vec[FirstIndex(Ids(vec, VectorId), id)] == init[FirstIndex(Ids(init, VectorId), id)];
    }
  }

  /** Where each fused entry's metadata comes from. */
  lemma EntryMetadata(id: int, fts: seq<Fts.FtsResult>, vec: seq<Vector.VectorResult>)
    requires id in AllIds(fts, vec)
    ensures id in Ids(fts, FtsId) ==>
      var e := Entry(id, fts, vec);
      ChunkData(e.chunkId, e.documentId, e.protocolId, e.chunkText, e.sectionType)
      == FtsData(fts[Ranks(Ids(fts, FtsId))[id] - 1])
    ensures id !in Ids(fts, FtsId) ==>
      var e := Entry(id, fts, vec);
      ChunkData(e.chunkId, e.documentId, e.protocolId, e.chunkText, e.sectionType)
      == VectorData(vec[FirstIndex(Ids(vec, VectorId), id)])
  {
    if id in Ids(fts, FtsId) {
      LexicalWins(fts, vec, id);
      LexicalMetadata(fts, id);
    } else {
      VectorMetadata(fts, vec, id);
    }
  }

  // ---------------------------------------------------------------------
  // `search`: dispatch on the mode

  function FromFts(r: Fts.FtsResult): SearchResult {
    SearchResult(r.chunkId, r.documentId, r.protocolId, r.chunkText, r.sectionType, r.score, "fts")
  }

  function FromVector(r: Vector.VectorResult): SearchResult {
    SearchResult(r.chunkId, r.documentId, r.protocolId, r.chunkText, r.sectionType, r.score, "vector")
  }

  /** `HybridSearch.search`, given the engine's rows, the candidate vector
      rows and the query's embedding. Mode "fts" relabels the lexical
      results, mode "vector" the vector results, and every other mode fuses
      both lists, each fetched with three times the limit. A malformed
      embedding blob aborts the vector search and so the whole search. */
  method Search(mode: string, ftsRows: seq<Fts.FtsRow>, vectorRows: seq<Vector.VectorRow>, query: seq<real>,
                limit: int, protocolIds: seq<string>, sectionTypes: seq<string>,
                unpack: seq<bv8> -> seq<real>, root: real -> real)
    returns (r: Result<seq<SearchResult>, string>)
    requires Vector.IsUnpack(unpack) && Vector.IsRoot(root)
    ensures mode == "fts" ==>
      var fts := Fts.Results(ftsRows, limit, protocolIds, sectionTypes);
      r.Ok? && |r.value| == |fts| && forall k :: 0 <= k < |fts| ==> r.value[k] == FromFts(fts[k])
    ensures mode == "vector" ==>
      match Vector.VectorSearch(query, vectorRows, limit, protocolIds, sectionTypes, unpack, root)
      case Err(e) => r == Err(e)
      case Ok(vs) => r.Ok? && |r.value| == |vs| && forall k :: 0 <= k < |vs| ==> r.value[k] == FromVector(vs[k])
    ensures mode != "fts" && mode != "vector" ==>
      match Vector.VectorSearch(query, vectorRows, limit * 3, protocolIds, sectionTypes, unpack, root)
      case Err(e) => r == Err(e)
      case Ok(vs) => r.Ok? && IsFusion(Fts.Results(ftsRows, limit * 3, protocolIds, sectionTypes), vs, limit, r.value)
  {
    if mode == "fts" {
      var fts := Fts.Search(ftsRows, limit, protocolIds, sectionTypes);
      return Ok(seq(|fts|, k requires 0 <= k < |fts| => FromFts(fts[k])));
    } else if mode == "vector" {
      var vec := Vector.Search(query, vectorRows, limit, protocolIds, sectionTypes, unpack, root);
      if vec.Err? {
        return Err(vec.error);
      }
      var vs := vec.value;
      return Ok(seq(|vs|, k requires 0 <= k < |vs| => FromVector(vs[k])));
    } else {
      var fetchLimit := limit * 3;
      var fts := Fts.Search(ftsRows, fetchLimit, protocolIds, sectionTypes);
      var vec := Vector.Search(query, vectorRows, fetchLimit, protocolIds, sectionTypes, unpack, root);
      if vec.Err? {
        return Err(vec.error);
      }
      var results := Fuse(fts, vec.value, limit);
      return Ok(results);
    }
  }
}
