/** Vector search: an exhaustive scan that decodes every candidate's stored
    embedding, scores it by cosine similarity against the query embedding,
    sorts the candidates by score (highest first, ties in fetch order) and
    keeps the first `limit`. The embedding model, the float32 decoding and
    the square root are parameters. */
module Vector {
  import opened Wrappers
  import opened Sorting
  import opened Sql

  // ---------------------------------------------------------------------
  // Vector arithmetic

  /** `sum(x * y for x, y in zip(a, b))`: pairs up to the shorter vector. */
  function Dot(a: seq<real>, b: seq<real>): real
    decreases |a|
  {
    if a == [] || b == [] then 0.0 else a[0] * b[0] + Dot(a[1..], b[1..])
  }

  /** `sum(x * x for x in a)`. */
  function SumSq(a: seq<real>): real {
    Dot(a, a)
  }

  predicate IsZero(a: seq<real>) {
    forall i :: 0 <= i < |a| ==> a[i] == 0.0
  }

  /** What the model assumes of `math.sqrt`: a non-negative result that is
      zero exactly for zero. */
  ghost predicate IsRoot(root: real -> real) {
    forall x :: x >= 0.0 ==> root(x) >= 0.0 && (root(x) == 0.0 <==> x == 0.0)
  }

  lemma {:induction false} DotSymmetric(a: seq<real>, b: seq<real>)
    ensures Dot(a, b) == Dot(b, a)
    decreases |a|
  {
    if a != [] && b != [] {
      DotSymmetric(a[1..], b[1..]);
    }
  }

  /** A sum of squares is never negative, and is zero for the zero
      vector. */
  lemma {:induction false} SumSqZero(a: seq<real>)
    ensures SumSq(a) >= 0.0
    ensures IsZero(a) ==> SumSq(a) == 0.0
    decreases |a|
  {
    if a != [] {
      SumSqZero(a[1..]);
      assert SumSq(a) == a[0] * a[0] + SumSq(a[1..]);
      if IsZero(a) {
        assert a[0] == 0.0;
        forall i | 0 <= i < |a[1..]| ensures a[1..][i] == 0.0 {
          assert a[1..][i] == a[i + 1];
        }
      }
    }
  }

  /** `_cosine_similarity`: zero when the lengths differ or either vector
      is the zero vector, otherwise the dot product over the norms. */
  function Cosine(a: seq<real>, b: seq<real>, root: real -> real): (r: real)
    requires IsRoot(root)
    ensures |a| != |b| ==> r == 0.0
    ensures IsZero(a) || IsZero(b) ==> r == 0.0
    ensures |a| == |b| && SumSq(a) != 0.0 && SumSq(b) != 0.0 ==>
      root(SumSq(a)) > 0.0 && root(SumSq(b)) > 0.0 && r * (root(SumSq(a)) * root(SumSq(b))) == Dot(a, b)
  {
    SumSqZero(a);
    SumSqZero(b);
    if |a| != |b| then 0.0
    else
      var na := root(SumSq(a));
      var nb := root(SumSq(b));
      if na == 0.0 || nb == 0.0 then 0.0
      else
        assert na * nb > 0.0;
        Dot(a, b) / (na * nb)
  }

  /** Cosine similarity does not depend on the order of its arguments. */
  lemma CosineSymmetric(a: seq<real>, b: seq<real>, root: real -> real)
    requires IsRoot(root)
    ensures Cosine(a, b, root) == Cosine(b, a, root)
  {
    DotSymmetric(a, b);
    if |a| == |b| && SumSq(a) != 0.0 && SumSq(b) != 0.0 {
      var na := root(SumSq(a));
      var nb := root(SumSq(b));
      assert na * nb == nb * na;
    }
  }

  // ---------------------------------------------------------------------
  // Decoding stored embeddings

  /** What the model assumes of `struct.unpack("<n>f", blob)`: one value
      per four bytes. */
  ghost predicate IsUnpack(unpack: seq<bv8> -> seq<real>) {
    forall blob :: |blob| % 4 == 0 ==> |unpack(blob)| == |blob| / 4
  }

  /** The embedding stored in `blob`, of dimension `len(blob) // 4`; a blob
      whose length is not a multiple of four makes `struct.unpack` fail. */
  function Decode(blob: seq<bv8>, unpack: seq<bv8> -> seq<real>): (r: Result<seq<real>, string>)
    requires IsUnpack(unpack)
    ensures r.Ok? <==> |blob| % 4 == 0
    ensures r.Ok? ==> |r.value| == |blob| / 4
  {
    if |blob| % 4 == 0 then Ok(unpack(blob)) else Err("unpack requires a buffer of a multiple of 4 bytes")
  }

  // ---------------------------------------------------------------------
  // `search`

  /** A candidate row: an embedding joined with its chunk, document and
      (possibly missing) section. */
  datatype VectorRow = VectorRow(chunkId: int, documentId: int, protocolId: Option<string>,
                                 chunkText: string, sectionType: Option<string>, blob: seq<bv8>)

  datatype VectorResult = VectorResult(chunkId: int, documentId: int, protocolId: Option<string>,
                                       chunkText: string, sectionType: Option<string>, score: real)

  function Score(r: VectorResult): real {
    r.score
  }

  predicate Passes(row: VectorRow, protocolIds: seq<string>, sectionTypes: seq<string>) {
    InFilter(row.protocolId, protocolIds) && InFilter(row.sectionType, sectionTypes)
  }

  /** The candidates the query fetches, in the engine's order. */
  function Candidates(rows: seq<VectorRow>, protocolIds: seq<string>, sectionTypes: seq<string>): seq<VectorRow> {
    Where(rows, row => Passes(row, protocolIds, sectionTypes))
  }

  function Scored(query: seq<real>, row: VectorRow, emb: seq<real>, root: real -> real): VectorResult
    requires IsRoot(root)
  {
    VectorResult(row.chunkId, row.documentId, row.protocolId, row.chunkText, row.sectionType, Cosine(query, emb, root))
  }

  /** Every candidate scored, in fetch order; the first undecodable
      embedding aborts the search. */
  function ScoreAll(query: seq<real>, rows: seq<VectorRow>, unpack: seq<bv8> -> seq<real>, root: real -> real)
    : (r: Result<seq<VectorResult>, string>)
    requires IsUnpack(unpack) && IsRoot(root)
    ensures r.Ok? ==> |r.value| == |rows|
    decreases |rows|
  {
    if rows == [] then Ok([])
    else
      var last := rows[|rows| - 1];
      match ScoreAll(query, rows[..|rows| - 1], unpack, root)
      case Err(e) => Err(e)
      case Ok(rs) =>
        match Decode(last.blob, unpack)
        case Err(e) => Err(e)
        case Ok(emb) => Ok(rs + [Scored(query, last, emb, root)])
  }

  /** The search's answer: all candidates scored, stably sorted by score
      from highest to lowest, the first `limit` kept. */
  function VectorSearch(query: seq<real>, rows: seq<VectorRow>, limit: int, protocolIds: seq<string>,
                        sectionTypes: seq<string>, unpack: seq<bv8> -> seq<real>, root: real -> real)
    : (r: Result<seq<VectorResult>, string>)
    requires IsUnpack(unpack) && IsRoot(root)
    ensures r.Ok? ==> SortedDesc(r.value, Score)
    ensures r.Ok? && limit >= 0 ==> |r.value| <= limit
    ensures r.Ok? <==> forall row :: row in rows && Passes(row, protocolIds, sectionTypes) ==> |row.blob| % 4 == 0
  {
    var candidates := Candidates(rows, protocolIds, sectionTypes);
    CandidatesSpec(rows, protocolIds, sectionTypes);
    ScoreAllSpec(query, candidates, unpack, root);
    match ScoreAll(query, candidates, unpack, root)
    case Err(e) => Err(e)
    case Ok(rs) => TopDesc(rs, Score, limit); Ok(PyPrefix(SortDesc(rs, Score), limit))
  }

  /** `search`, given the query's embedding and the candidate rows. */
  method Search(query: seq<real>, rows: seq<VectorRow>, limit: int, protocolIds: seq<string>,
                sectionTypes: seq<string>, unpack: seq<bv8> -> seq<real>, root: real -> real)
    returns (r: Result<seq<VectorResult>, string>)
    requires IsUnpack(unpack) && IsRoot(root)
    ensures r == VectorSearch(query, rows, limit, protocolIds, sectionTypes, unpack, root)
  {
    var fetched := Candidates(rows, protocolIds, sectionTypes);
    var results: seq<VectorResult> := [];
    for k := 0 to |fetched|
      invariant ScoreAll(query, fetched[..k], unpack, root) == Ok(results)
    {
      assert fetched[..k + 1][..k] == fetched[..k];
      var emb := Decode(fetched[k].blob, unpack);
      if emb.Err? {
        ScoreAllAborts(query, fetched, k + 1, unpack, root);
        return Err(emb.error);
      }
      results := results + [Scored(query, fetched[k], emb.value, root)];
    }
    assert fetched[..|fetched|] == fetched;
    results := SortDesc(results, Score);
    r := Ok(PyPrefix(results, limit));
  }

  /** Once a prefix fails, the whole scan fails with the same error. */
  lemma {:induction false} ScoreAllAborts(query: seq<real>, rows: seq<VectorRow>, k: nat,
                                          unpack: seq<bv8> -> seq<real>, root: real -> real)
    requires IsUnpack(unpack) && IsRoot(root) && k <= |rows|
    requires ScoreAll(query, rows[..k], unpack, root).Err?
    ensures ScoreAll(query, rows, unpack, root) == ScoreAll(query, rows[..k], unpack, root)
    decreases |rows| - k
  {
    if k < |rows| {
      assert rows[..k + 1][..k] == rows[..k];
      ScoreAllAborts(query, rows, k + 1, unpack, root);
    } else {
      assert rows[..k] == rows;
    }
  }

  // ---------------------------------------------------------------------
  // What the search promises

  /** The scan is exhaustive: each candidate is scored against its own
      decoded embedding, in fetch order. */
  lemma {:induction false} ScoreAllSpec(query: seq<real>, rows: seq<VectorRow>,
                                        unpack: seq<bv8> -> seq<real>, root: real -> real)
    requires IsUnpack(unpack) && IsRoot(root)
    ensures ScoreAll(query, rows, unpack, root).Ok? <==> forall k :: 0 <= k < |rows| ==> |rows[k].blob| % 4 == 0
    ensures ScoreAll(query, rows, unpack, root).Ok? ==> forall k :: 0 <= k < |rows| ==>
      ScoreAll(query, rows, unpack, root).value[k] == Scored(query, rows[k], unpack(rows[k].blob), root)
    decreases |rows|
  {
    if rows != [] {
      var init := rows[..|rows| - 1];
      ScoreAllSpec(query, init, unpack, root);
      assert forall k :: 0 <= k < |init| ==> init[k] == rows[k];
    }
  }

  /** The answer is sorted by score, highest first; it holds `limit`
      results or all candidates when fewer; it is drawn from the scored
      candidates without repetition; and equal scores keep fetch order. */
  lemma SearchSpec(query: seq<real>, rows: seq<VectorRow>, limit: int, protocolIds: seq<string>,
                   sectionTypes: seq<string>, unpack: seq<bv8> -> seq<real>, root: real -> real,
                   scored: seq<VectorResult>)
    requires IsUnpack(unpack) && IsRoot(root)
    requires ScoreAll(query, Candidates(rows, protocolIds, sectionTypes), unpack, root) == Ok(scored)
    ensures VectorSearch(query, rows, limit, protocolIds, sectionTypes, unpack, root).Ok?
    ensures SortedDesc(VectorSearch(query, rows, limit, protocolIds, sectionTypes, unpack, root).value, Score)
    ensures limit >= 0 ==>
      |VectorSearch(query, rows, limit, protocolIds, sectionTypes, unpack, root).value|
      == if limit < |scored| then limit else |scored|
    ensures multiset(VectorSearch(query, rows, limit, protocolIds, sectionTypes, unpack, root).value) <= multiset(scored)
    ensures forall v :: WithKey(SortDesc(scored, Score), Score, v) == WithKey(scored, Score, v)
  {
    TopDesc(scored, Score, limit);
    forall v
      ensures WithKey(SortDesc(scored, Score), Score, v) == WithKey(scored, Score, v)
    {
      SortDescStable(scored, Score, v);
    }
  }

  /** A candidate is scored exactly when it passes the filters. */
  lemma CandidatesSpec(rows: seq<VectorRow>, protocolIds: seq<string>, sectionTypes: seq<string>)
    ensures forall row :: row in Candidates(rows, protocolIds, sectionTypes) <==> row in rows && Passes(row, protocolIds, sectionTypes)
  {
    WhereSpec(rows, row => Passes(row, protocolIds, sectionTypes));
  }
}
