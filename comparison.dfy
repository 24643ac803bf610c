/** The protocol comparer's eligibility matching: criteria of several
    protocols pooled, compared pairwise across protocols by the cosine
    similarity of their embeddings, the close pairs reported and the
    criteria that match nothing set aside per protocol; plus the text it
    hands to the language model. */
module Comparison {
  import opened Wrappers
  import opened Text
  import opened Sorting
  import Vector
  import Titles
  import Store

  /** `ProtocolComparer.SIMILARITY_THRESHOLD`. */
  const SimilarityThreshold: real := 0.85

  // ---------------------------------------------------------------------
  // Criteria

  /** A row of `eligibility_criteria`, as `_get_criteria` returns it. */
  type CriterionRow = Store.CriterionRow

  /** A pooled criterion: the row with the `protocol_id` key added. This is
      also the copy a reported pair holds, the `embedding` key left out. */
  datatype Criterion = Criterion(row: CriterionRow, protocolId: string)

  /** A pooled criterion once its `embedding` key is set. */
  datatype Embedded = Embedded(criterion: Criterion, embedding: seq<real>)

  /** One entry of `similar_pairs`. */
  datatype Pair = Pair(first: Criterion, second: Criterion, similarity: real, protocols: seq<string>)

  /** A Python dict with string keys: its keys in insertion order and its
      entries. */
  datatype Dict<V> = Dict(keys: seq<string>, values: map<string, V>)

  ghost predicate WellFormed<V>(d: Dict<V>) {
    Distinct(d.keys) && forall k :: k in d.values <==> k in d.keys
  }

  /** `d[k] = v`: a new key goes to the end, an existing one keeps its
      place. */
  function Put<V>(d: Dict<V>, k: string, v: V): (r: Dict<V>)
    ensures WellFormed(d) ==> WellFormed(r)
    ensures forall j :: j in r.values <==> j in d.values || j == k
    ensures r.values[k] == v && forall j :: j in d.values && j != k ==> r.values[j] == d.values[j]
  {
    if k in d.values then Dict(d.keys, d.values[k := v])
    else
      var r := Dict(d.keys + [k], d.values[k := v]);
      assert WellFormed(d) ==> Distinct(r.keys) by {
        if WellFormed(d) {
          forall i, j | 0 <= i < j < |r.keys| ensures r.keys[i] != r.keys[j] {
            if j == |d.keys| {
              assert r.keys[i] == d.keys[i];
              assert d.keys[i] in d.values;
            }
          }
        }
      }
      r
  }

  // ---------------------------------------------------------------------
  // `_cosine_similarity`

  /** `math.sqrt(sum(x * x for x in a))`. */
  function Norm(a: seq<real>, root: real -> real): real {
    root(Vector.SumSq(a))
  }

  /** `_cosine_similarity` of this file: the dot product pairs up to the
      shorter vector, each norm runs over its whole vector, and a zero norm
      gives 0. Unlike the vector search's version there is no length
      check. */
  function Cosine(a: seq<real>, b: seq<real>, root: real -> real): (r: real)
    ensures Norm(a, root) == 0.0 || Norm(b, root) == 0.0 ==> r == 0.0
    ensures Norm(a, root) != 0.0 && Norm(b, root) != 0.0 ==> r * (Norm(a, root) * Norm(b, root)) == Vector.Dot(a, b)
  {
    var na, nb := Norm(a, root), Norm(b, root);
    if na == 0.0 || nb == 0.0 then 0.0
    else
      assert na * nb != 0.0;
      Vector.Dot(a, b) / (na * nb)
  }

  /** The zero vector is similar to nothing. */
  lemma CosineZero(a: seq<real>, b: seq<real>, root: real -> real)
    requires Vector.IsRoot(root)
    requires Vector.IsZero(a) || Vector.IsZero(b)
    ensures Cosine(a, b, root) == 0.0
  {
    Vector.SumSqZero(a);
    Vector.SumSqZero(b);
  }

  lemma CosineSymmetric(a: seq<real>, b: seq<real>, root: real -> real)
    ensures Cosine(a, b, root) == Cosine(b, a, root)
  {
    Vector.DotSymmetric(a, b);
    var na, nb := Norm(a, root), Norm(b, root);
    assert na * nb == nb * na;
  }

  /** On vectors of equal length both cosine similarities agree. */
  lemma CosineAgrees(a: seq<real>, b: seq<real>, root: real -> real)
    requires Vector.IsRoot(root) && |a| == |b|
    ensures Cosine(a, b, root) == Vector.Cosine(a, b, root)
  {
    Vector.SumSqZero(a);
    Vector.SumSqZero(b);
  }

  /** On vectors of different lengths they do not: here the shorter one is
      matched against a prefix of the longer. */
  lemma CosineLengthMismatch(root: real -> real)
    requires Vector.IsRoot(root)
    ensures Cosine([1.0], [1.0, 0.0], root) > 0.0
    ensures Vector.Cosine([1.0], [1.0, 0.0], root) == 0.0
  {
    var a, b := [1.0], [1.0, 0.0];
    assert Vector.Dot(a, b) == 1.0 by {
      assert a[1..] == [];
    }
    assert Vector.SumSq(a) == 1.0 by {
      assert a[1..] == [];
    }
    assert Vector.SumSq(b) == 1.0 by {
      assert b[1..] == [0.0] && b[1..][1..] == [];
    }
    var n := root(1.0);
    assert n > 0.0;
    assert Cosine(a, b, root) * (n * n) == 1.0;
  }

  // ---------------------------------------------------------------------
  // `_find_similar_criteria`

  /** The pooled positions `i < j` in the order the two loops visit them. */
  predicate Before(p: (nat, nat), q: (nat, nat)) {
    p.0 < q.0 || (p.0 == q.0 && p.1 < q.1)
  }

  predicate Ordered(ps: seq<(nat, nat)>) {
    forall a, b :: 0 <= a < b < |ps| ==> Before(ps[a], ps[b])
  }

  /** The inner loop for `c1 = all[i]`: `(i, i + 1)`, ..., `(i, j - 1)`. */
  function RowPairs(i: nat, j: nat): (ps: seq<(nat, nat)>)
    ensures |ps| == if j > i + 1 then j - i - 1 else 0
    ensures forall k :: 0 <= k < |ps| ==> ps[k] == (i, i + 1 + k)
  {
    seq(if j > i + 1 then j - i - 1 else 0, k => (i, i + 1 + k))
  }

  /** The first `m` rounds of the outer loop over `n` criteria. */
  function IndexPairs(n: nat, m: nat): seq<(nat, nat)> {
    if m == 0 then [] else IndexPairs(n, m - 1) + RowPairs(m - 1, n)
  }

  /** The loops visit every pair of positions `i < j` exactly in `(i, j)`
      order. */
  lemma {:induction false} IndexPairsSpec(n: nat, m: nat)
    requires m <= n
    ensures forall p :: p in IndexPairs(n, m) <==> p.0 < m && p.0 < p.1 < n
    ensures Ordered(IndexPairs(n, m))
  {
    if m > 0 {
      IndexPairsSpec(n, m - 1);
      var a, b := IndexPairs(n, m - 1), RowPairs(m - 1, n);
      forall p: (nat, nat) | p.0 == m - 1 && p.0 < p.1 < n ensures p in b {
        assert b[p.1 - m] == p;
      }
      forall x, y | 0 <= x < y < |a + b| ensures Before((a + b)[x], (a + b)[y]) {
        if y < |a| {
        } else if x < |a| {
          assert (a + b)[x] in a;
        }
      }
    }
  }

  /** Pooled positions `p.0` and `p.1` hold criteria of different protocols
      whose similarity reaches the threshold. */
  predicate Matches(all: seq<Embedded>, p: (nat, nat), root: real -> real) {
    p.0 < |all| && p.1 < |all|
    && all[p.0].criterion.protocolId != all[p.1].criterion.protocolId
    && Cosine(all[p.0].embedding, all[p.1].embedding, root) >= SimilarityThreshold
  }

  /** The visited pairs that are reported. */
  function Matched(all: seq<Embedded>, ps: seq<(nat, nat)>, root: real -> real): seq<(nat, nat)>
    decreases |ps|
  {
    if ps == [] then []
    else Matched(all, ps[..|ps| - 1], root) + if Matches(all, ps[|ps| - 1], root) then [ps[|ps| - 1]] else []
  }

  lemma {:induction false} MatchedSpec(all: seq<Embedded>, ps: seq<(nat, nat)>, root: real -> real)
    ensures forall p :: p in Matched(all, ps, root) <==> p in ps && Matches(all, p, root)
    ensures Ordered(ps) ==> Ordered(Matched(all, ps, root))
    decreases |ps|
  {
    if ps != [] {
      var init := ps[..|ps| - 1];
      MatchedSpec(all, init, root);
      assert ps == init + [ps[|ps| - 1]];
      if Ordered(ps) {
        assert Ordered(init);
        var m := Matched(all, init, root);
        var last := ps[|ps| - 1];
        forall x | x in m ensures Before(x, last) {
          var k :| 0 <= k < |init| && init[k] == x;
          assert ps[k] == x;
        }
        var r := m + if Matches(all, last, root) then [last] else [];
        forall x, y | 0 <= x < y < |r| ensures Before(r[x], r[y]) {
          if y == |m| {
            assert r[x] in m;
          }
        }
      }
    }
  }

  /** The positions of the reported pairs. */
  function SimilarIndices(all: seq<Embedded>, root: real -> real): seq<(nat, nat)> {
    Matched(all, IndexPairs(|all|, |all|), root)
  }

  /** The reported pairs are exactly the pairs of positions `i < j` holding
      criteria of different protocols with similarity at least 0.85, and
      they come in `(i, j)` order. */
  lemma SimilarSpec(all: seq<Embedded>, root: real -> real)
    ensures forall p :: p in SimilarIndices(all, root) <==> p.0 < p.1 && Matches(all, p, root)
    ensures Ordered(SimilarIndices(all, root))
  {
    IndexPairsSpec(|all|, |all|);
    MatchedSpec(all, IndexPairs(|all|, |all|), root);
  }

  /** The entry for a reported pair: both criteria without their
      embeddings, the similarity and the two protocols. */
  function MakePair(all: seq<Embedded>, p: (nat, nat), root: real -> real): Pair
    requires p.0 < |all| && p.1 < |all|
  {
    var c1, c2 := all[p.0], all[p.1];
    Pair(c1.criterion, c2.criterion, Cosine(c1.embedding, c2.embedding, root),
         [c1.criterion.protocolId, c2.criterion.protocolId])
  }

  predicate InRange(all: seq<Embedded>, ps: seq<(nat, nat)>) {
    forall k :: 0 <= k < |ps| ==> ps[k].0 < |all| && ps[k].1 < |all|
  }

  function PairsOf(all: seq<Embedded>, ps: seq<(nat, nat)>, root: real -> real): (r: seq<Pair>)
    requires InRange(all, ps)
    ensures |r| == |ps|
    decreases |ps|
  {
    if ps == [] then [] else PairsOf(all, ps[..|ps| - 1], root) + [MakePair(all, ps[|ps| - 1], root)]
  }

  lemma {:induction false} PairsOfAt(all: seq<Embedded>, ps: seq<(nat, nat)>, root: real -> real)
    requires InRange(all, ps)
    ensures forall k :: 0 <= k < |ps| ==> PairsOf(all, ps, root)[k] == MakePair(all, ps[k], root)
    decreases |ps|
  {
    if ps != [] {
      PairsOfAt(all, ps[..|ps| - 1], root);
    }
  }

  /** What `_find_similar_criteria` returns: one entry per reported pair
      of positions, in order. */
  function SimilarPairs(all: seq<Embedded>, root: real -> real): (r: seq<Pair>)
    ensures |r| == |SimilarIndices(all, root)|
    ensures forall k :: 0 <= k < |r| ==>
      SimilarIndices(all, root)[k].0 < |all| && SimilarIndices(all, root)[k].1 < |all|
      && r[k] == MakePair(all, SimilarIndices(all, root)[k], root)
  {
    var ps := SimilarIndices(all, root);
    SimilarSpec(all, root);
    assert forall k :: 0 <= k < |ps| ==> ps[k] in ps;
    PairsOfAt(all, ps, root);
    PairsOf(all, ps, root)
  }

  /** A reported pair joins criteria of two different protocols at or
      above the threshold, the earlier pooled criterion first. */
  lemma SimilarPairsSpec(all: seq<Embedded>, root: real -> real, k: nat)
    requires k < |SimilarPairs(all, root)|
    ensures var p := SimilarPairs(all, root)[k];
      p.first.protocolId != p.second.protocolId && p.similarity >= SimilarityThreshold
      && p.protocols == [p.first.protocolId, p.second.protocolId]
      && exists i, j :: 0 <= i < j < |all| && p.first == all[i].criterion && p.second == all[j].criterion
  {
    var q := SimilarIndices(all, root)[k];
    SimilarSpec(all, root);
    assert q in SimilarIndices(all, root);
    assert SimilarPairs(all, root)[k].first == all[q.0].criterion;
  }

  /** One step of the inner loop: the pair `(i, j)` is visited next. */
  lemma MatchedStep(all: seq<Embedded>, seen: seq<(nat, nat)>, i: nat, j: nat, root: real -> real)
    requires j >= i + 1
    ensures Matched(all, seen + RowPairs(i, j + 1), root)
         == Matched(all, seen + RowPairs(i, j), root) + if Matches(all, (i, j), root) then [(i, j)] else []
  {
    var s := seen + RowPairs(i, j);
    assert seen + RowPairs(i, j + 1) == s + [(i, j)];
    assert (s + [(i, j)])[..|s|] == s;
  }

  lemma PairsOfSnoc(all: seq<Embedded>, ps: seq<(nat, nat)>, q: (nat, nat), root: real -> real)
    requires InRange(all, ps) && q.0 < |all| && q.1 < |all|
    ensures InRange(all, ps + [q])
    ensures PairsOf(all, ps + [q], root) == PairsOf(all, ps, root) + [MakePair(all, q, root)]
  {
    assert (ps + [q])[..|ps|] == ps;
  }

  /** `_find_similar_criteria`: for each pooled criterion, each later
      one of another protocol is compared, and the pair is kept when the
      similarity reaches the threshold. */
  method FindSimilar(all: seq<Embedded>, root: real -> real) returns (pairs: seq<Pair>)
    ensures pairs == SimilarPairs(all, root)
  {
    var n := |all|;
    pairs := [];
    ghost var idx: seq<(nat, nat)> := [];
    for i := 0 to n
      invariant InRange(all, idx) && idx == Matched(all, IndexPairs(n, i), root)
      invariant pairs == PairsOf(all, idx, root)
    {
      ghost var before := IndexPairs(n, i);
      assert before + RowPairs(i, i + 1) == before;
      for j := i + 1 to n
        invariant InRange(all, idx) && idx == Matched(all, before + RowPairs(i, j), root)
        invariant pairs == PairsOf(all, idx, root)
      {
        MatchedStep(all, before, i, j, root);
        if all[i].criterion.protocolId != all[j].criterion.protocolId {
          var similarity := Cosine(all[i].embedding, all[j].embedding, root);
          if similarity >= SimilarityThreshold {
            PairsOfSnoc(all, idx, (i, j), root);
            pairs := pairs + [Pair(all[i].criterion, all[j].criterion, similarity,
                                   [all[i].criterion.protocolId, all[j].criterion.protocolId])];
            idx := idx + [(i, j)];
          }
        }
      }
    }
  }

  // ---------------------------------------------------------------------
  // `compare_eligibility`

  /** `criteria_by_protocol` as the first loop builds it, given the
      criteria of each protocol that has a document (already filtered by
      criterion type). */
  function Collect(ids: seq<string>, found: map<string, seq<CriterionRow>>): (d: Dict<seq<CriterionRow>>)
    ensures WellFormed(d)
    decreases |ids|
  {
    if ids == [] then Dict([], map[])
    else
      var d := Collect(ids[..|ids| - 1], found);
      var pid := ids[|ids| - 1];
      if pid in found then Put(d, pid, found[pid]) else d
  }

  /** Each requested protocol that has a document appears once, with its
      criteria; nothing else appears. */
  lemma {:induction false} CollectSpec(ids: seq<string>, found: map<string, seq<CriterionRow>>)
    ensures forall pid :: pid in Collect(ids, found).values <==> pid in ids && pid in found
    ensures forall pid :: pid in Collect(ids, found).values ==> Collect(ids, found).values[pid] == found[pid]
    decreases |ids|
  {
    if ids != [] {
      CollectSpec(ids[..|ids| - 1], found);
      assert ids == ids[..|ids| - 1] + [ids[|ids| - 1]];
    }
  }

  /** The criteria of one protocol, tagged with it. */
  function Tagged(rows: seq<CriterionRow>, pid: string): (r: seq<Criterion>)
    ensures |r| == |rows| && forall k :: 0 <= k < |rows| ==> r[k] == Criterion(rows[k], pid)
  {
    seq(|rows|, k requires 0 <= k < |rows| => Criterion(rows[k], pid))
  }

  ghost predicate HasKeys<V>(d: Dict<V>) {
    forall k :: k in d.keys ==> k in d.values
  }

  /** `all_criteria`: the tagged criteria of the first `n` protocols, in
      key order. */
  function Pool(d: Dict<seq<CriterionRow>>, n: nat): seq<Criterion>
    requires HasKeys(d) && n <= |d.keys|
  {
    if n == 0 then [] else Pool(d, n - 1) + Tagged(d.values[d.keys[n - 1]], d.keys[n - 1])
  }

  /** A criterion is pooled exactly when it belongs to one of the
      protocols, tagged with that protocol. */
  lemma {:induction false} PoolSpec(d: Dict<seq<CriterionRow>>, n: nat)
    requires HasKeys(d) && n <= |d.keys|
    ensures forall c :: c in Pool(d, n) <==> exists k :: 0 <= k < n && c.protocolId == d.keys[k] && c.row in d.values[d.keys[k]]
  {
    if n > 0 {
      PoolSpec(d, n - 1);
      var pid := d.keys[n - 1];
      var t := Tagged(d.values[pid], pid);
      forall c: Criterion | c.protocolId == pid && c.row in d.values[pid] ensures c in t {
        var i :| 0 <= i < |d.values[pid]| && d.values[pid][i] == c.row;
        assert t[i] == c;
      }
    }
  }

  /** The embeddings set on the pooled criteria, one per criterion text. */
  function Embed(pool: seq<Criterion>, embed: string -> seq<real>): (r: seq<Embedded>)
    ensures |r| == |pool|
    ensures forall k :: 0 <= k < |pool| ==> r[k].criterion == pool[k] && r[k].embedding == embed(pool[k].row.criterionText)
  {
    seq(|pool|, k requires 0 <= k < |pool| => Embedded(pool[k], embed(pool[k].row.criterionText)))
  }

  /** `criteria_by_protocol` as returned: its dicts are the very dicts that
      were pooled, so they carry the `protocol_id` and `embedding` keys
      set on the pool. */
  function Annotate(d: Dict<seq<CriterionRow>>, embed: string -> seq<real>): (r: Dict<seq<Embedded>>)
    ensures WellFormed(d) ==> WellFormed(r)
  {
    Dict(d.keys, map pid | pid in d.values :: Embed(Tagged(d.values[pid], pid), embed))
  }

  /** The `(id, protocol_id)` of either criterion of a pair. */
  predicate InPair(key: (int, string), p: Pair) {
    key == (p.first.row.id, p.first.protocolId) || key == (p.second.row.id, p.second.protocolId)
  }

  /** No reported pair holds the criterion with this `(id, protocol_id)`. */
  predicate Unpaired(key: (int, string), pairs: seq<Pair>) {
    forall k :: 0 <= k < |pairs| ==> !InPair(key, pairs[k])
  }

  /** `matched_ids` after the loop over the pairs. */
  function MatchedKeys(pairs: seq<Pair>): set<(int, string)>
    decreases |pairs|
  {
    if pairs == [] then {}
    else
      var p := pairs[|pairs| - 1];
      MatchedKeys(pairs[..|pairs| - 1]) + {(p.first.row.id, p.first.protocolId), (p.second.row.id, p.second.protocolId)}
  }

  lemma {:induction false} MatchedKeysSpec(pairs: seq<Pair>)
    ensures forall key :: key in MatchedKeys(pairs) <==> exists k :: 0 <= k < |pairs| && InPair(key, pairs[k])
    decreases |pairs|
  {
    if pairs != [] {
      MatchedKeysSpec(pairs[..|pairs| - 1]);
      var n := |pairs|;
      forall key | key in MatchedKeys(pairs) ensures exists k :: 0 <= k < n && InPair(key, pairs[k]) {
        if key in MatchedKeys(pairs[..n - 1]) {
          var k :| 0 <= k < n - 1 && InPair(key, pairs[..n - 1][k]);
          assert InPair(key, pairs[k]);
        } else {
          assert InPair(key, pairs[n - 1]);
        }
      }
      forall key | exists k :: 0 <= k < n && InPair(key, pairs[k]) ensures key in MatchedKeys(pairs) {
        var k :| 0 <= k < n && InPair(key, pairs[k]);
        if k < n - 1 {
          assert InPair(key, pairs[..n - 1][k]);
        }
      }
    }
  }

  lemma MatchedUnpaired(pairs: seq<Pair>)
    ensures forall key :: key in MatchedKeys(pairs) <==> !Unpaired(key, pairs)
  {
    MatchedKeysSpec(pairs);
  }

  /** `[c for c in criteria if (c["id"], pid) not in matched_ids]`. */
  function Unmatched(cs: seq<Embedded>, pid: string, matched: set<(int, string)>): seq<Embedded>
    decreases |cs|
  {
    if cs == [] then []
    else
      var c := cs[|cs| - 1];
      Unmatched(cs[..|cs| - 1], pid, matched) + if (c.criterion.row.id, pid) !in matched then [c] else []
  }

  lemma {:induction false} UnmatchedSpec(cs: seq<Embedded>, pid: string, matched: set<(int, string)>)
    ensures forall c :: c in Unmatched(cs, pid, matched) <==> c in cs && (c.criterion.row.id, pid) !in matched
    decreases |cs|
  {
    if cs != [] {
      UnmatchedSpec(cs[..|cs| - 1], pid, matched);
      assert cs == cs[..|cs| - 1] + [cs[|cs| - 1]];
    }
  }

  /** `unique_criteria` after the first `n` protocols: a protocol is
      entered only when some criterion of it is unmatched. */
  function UniqueOf(d: Dict<seq<Embedded>>, matched: set<(int, string)>, n: nat): (u: Dict<seq<Embedded>>)
    requires HasKeys(d) && n <= |d.keys|
    ensures WellFormed(u)
  {
    if n == 0 then Dict([], map[])
    else
      var u := UniqueOf(d, matched, n - 1);
      var pid := d.keys[n - 1];
      var unique := Unmatched(d.values[pid], pid, matched);
      if unique != [] then Put(u, pid, unique) else u
  }

  function Unique(d: Dict<seq<Embedded>>, matched: set<(int, string)>): (u: Dict<seq<Embedded>>)
    requires HasKeys(d)
    ensures WellFormed(u)
  {
    UniqueOf(d, matched, |d.keys|)
  }

  lemma {:induction false} UniqueOfSpec(d: Dict<seq<Embedded>>, matched: set<(int, string)>, n: nat)
    requires HasKeys(d) && n <= |d.keys|
    ensures forall pid :: pid in UniqueOf(d, matched, n).values <==>
      pid in d.keys[..n] && Unmatched(d.values[pid], pid, matched) != []
    ensures forall pid :: pid in UniqueOf(d, matched, n).values ==>
      UniqueOf(d, matched, n).values[pid] == Unmatched(d.values[pid], pid, matched)
  {
    if n > 0 {
      UniqueOfSpec(d, matched, n - 1);
      assert d.keys[..n] == d.keys[..n - 1] + [d.keys[n - 1]];
    }
  }

  /** `c in d[pid]`. */
  predicate Listed(d: Dict<seq<Embedded>>, pid: string, c: Embedded) {
    pid in d.values && c in d.values[pid]
  }

  lemma UniqueMember(d: Dict<seq<Embedded>>, pairs: seq<Pair>, pid: string, c: Embedded)
    requires WellFormed(d)
    ensures Listed(Unique(d, MatchedKeys(pairs)), pid, c)
        <==> Listed(d, pid, c) && Unpaired((c.criterion.row.id, pid), pairs)
  {
    var matched := MatchedKeys(pairs);
    MatchedUnpaired(pairs);
    assert (c.criterion.row.id, pid) !in matched <==> Unpaired((c.criterion.row.id, pid), pairs);
    UniqueOfSpec(d, matched, |d.keys|);
    assert d.keys[..|d.keys|] == d.keys;
    if pid in d.values {
      UnmatchedSpec(d.values[pid], pid, matched);
    }
  }

  /** `unique_criteria[pid]` holds exactly the criteria of `pid` that occur
      in no reported pair, and `pid` is absent when there are none. */
  lemma UniqueSpec(d: Dict<seq<Embedded>>, pairs: seq<Pair>)
    requires WellFormed(d)
    ensures forall pid, c ::
      (Listed(Unique(d, MatchedKeys(pairs)), pid, c) <==> Listed(d, pid, c) && Unpaired((c.criterion.row.id, pid), pairs))
    ensures forall pid :: pid in Unique(d, MatchedKeys(pairs)).values ==> Unique(d, MatchedKeys(pairs)).values[pid] != []
  {
    forall pid, c
      ensures Listed(Unique(d, MatchedKeys(pairs)), pid, c)
          <==> Listed(d, pid, c) && Unpaired((c.criterion.row.id, pid), pairs)
    {
      UniqueMember(d, pairs, pid, c);
    }
    UniqueOfSpec(d, MatchedKeys(pairs), |d.keys|);
  }

  /** `EligibilityComparisonResult`. */
  datatype EligibilityComparison = EligibilityComparison(
    protocols: seq<string>, criteriaByProtocol: Dict<seq<Embedded>>, similar: seq<Pair>,
    unique: Dict<seq<Embedded>>, summary: string)

  /** The loop filling `criteria_by_protocol`. */
  method CollectCriteria(protocolIds: seq<string>, found: map<string, seq<CriterionRow>>)
    returns (byProtocol: Dict<seq<CriterionRow>>)
    ensures byProtocol == Collect(protocolIds, found)
  {
    byProtocol := Dict([], map[]);
    for i := 0 to |protocolIds|
      invariant byProtocol == Collect(protocolIds[..i], found)
    {
      assert protocolIds[..i + 1][..i] == protocolIds[..i];
      var pid := protocolIds[i];
      if pid in found {
        byProtocol := Put(byProtocol, pid, found[pid]);
      }
    }
    assert protocolIds[..|protocolIds|] == protocolIds;
  }

  /** The loops filling `all_criteria`. */
  method PoolCriteria(byProtocol: Dict<seq<CriterionRow>>) returns (pool: seq<Criterion>)
    requires HasKeys(byProtocol)
    ensures pool == Pool(byProtocol, |byProtocol.keys|)
  {
    pool := [];
    for i := 0 to |byProtocol.keys|
      invariant pool == Pool(byProtocol, i)
    {
      var pid := byProtocol.keys[i];
      var criteria := byProtocol.values[pid];
      for j := 0 to |criteria|
        invariant pool == Pool(byProtocol, i) + Tagged(criteria[..j], pid)
      {
        assert Tagged(criteria[..j + 1], pid) == Tagged(criteria[..j], pid) + [Criterion(criteria[j], pid)];
        pool := pool + [Criterion(criteria[j], pid)];
      }
      assert criteria[..|criteria|] == criteria;
    }
  }

  /** The loop filling `matched_ids`. */
  method CollectMatched(similar: seq<Pair>) returns (matched: set<(int, string)>)
    ensures matched == MatchedKeys(similar)
  {
    matched := {};
    for i := 0 to |similar|
      invariant matched == MatchedKeys(similar[..i])
    {
      assert similar[..i + 1][..i] == similar[..i];
      var p := similar[i];
      matched := matched + {(p.first.row.id, p.first.protocolId), (p.second.row.id, p.second.protocolId)};
    }
    assert similar[..|similar|] == similar;
  }

  /** The loop filling `unique_criteria`. */
  method CollectUnique(byProtocol: Dict<seq<Embedded>>, matched: set<(int, string)>)
    returns (unique: Dict<seq<Embedded>>)
    requires HasKeys(byProtocol)
    ensures unique == Unique(byProtocol, matched)
  {
    unique := Dict([], map[]);
    for i := 0 to |byProtocol.keys|
      invariant unique == UniqueOf(byProtocol, matched, i)
    {
      var pid := byProtocol.keys[i];
      var u := Unmatched(byProtocol.values[pid], pid, matched);
      if u != [] {
        unique := Put(unique, pid, u);
      }
    }
  }

  /** `compare_eligibility`, given the criteria of every protocol that has
      a document, the embedder, and whether an API key is configured. When
      no protocol is found, or the found ones have no criteria, there are
      no pairs and no unique criteria; otherwise the pairs are those of the
      pooled criteria and the unique criteria those that no pair holds. */
  method CompareEligibility(protocolIds: seq<string>, found: map<string, seq<CriterionRow>>,
                            embed: string -> seq<real>, root: real -> real, hasApiKey: bool)
    returns (r: EligibilityComparison)
    ensures var d := Collect(protocolIds, found);
      r.protocols == protocolIds && r.criteriaByProtocol == Annotate(d, embed)
      && (Pool(d, |d.keys|) == [] ==> r.similar == [] && r.unique == Dict([], map[]) && r.summary == "")
      && (Pool(d, |d.keys|) != [] ==>
            r.similar == SimilarPairs(Embed(Pool(d, |d.keys|), embed), root)
            && r.unique == Unique(Annotate(d, embed), MatchedKeys(r.similar))
            && r.summary == if hasApiKey then Summary(r.similar, r.unique) else "")
  {
    var byProtocol := CollectCriteria(protocolIds, found);
    var annotated := Annotate(byProtocol, embed);
    if byProtocol.keys == [] {
      return EligibilityComparison(protocolIds, annotated, [], Dict([], map[]), "");
    }
    var pool := PoolCriteria(byProtocol);
    if pool == [] {
      return EligibilityComparison(protocolIds, annotated, [], Dict([], map[]), "");
    }
    var all := Embed(pool, embed);
    var similar := FindSimilar(all, root);
    var matched := CollectMatched(similar);
    var unique := CollectUnique(annotated, matched);
    var summary := "";
    if hasApiKey {
      summary := GenerateSummary(similar, unique);
    }
    return EligibilityComparison(protocolIds, annotated, similar, unique, summary);
  }

  /** Without a requested protocol that has a document there is nothing to
      compare. */
  lemma {:induction false} NothingFound(protocolIds: seq<string>, found: map<string, seq<CriterionRow>>)
    requires forall pid :: pid in protocolIds ==> pid !in found
    ensures Collect(protocolIds, found).keys == []
    decreases |protocolIds|
  {
    if protocolIds != [] {
      var init := protocolIds[..|protocolIds| - 1];
      assert protocolIds[|protocolIds| - 1] in protocolIds;
      forall pid | pid in init ensures pid !in found {
        assert pid in protocolIds;
      }
      NothingFound(init, found);
    }
  }

  // ---------------------------------------------------------------------
  // `_generate_eligibility_summary`

  /** The sentences of the summary: the pair count, then one per protocol
      with unique criteria, in key order. */
  function SummaryParts(pairs: seq<Pair>, unique: Dict<seq<Embedded>>): (parts: seq<string>)
    requires HasKeys(unique)
  {
    ["Found " + Titles.DecimalString(|pairs|) + " similar criteria across protocols."]
    + seq(|unique.keys|, k requires 0 <= k < |unique.keys| =>
            unique.keys[k] + " has " + Titles.DecimalString(|unique.values[unique.keys[k]]|) + " unique criteria.")
  }

  /** The summary: it opens with the number of similar pairs, and is only
      that sentence when no protocol has unique criteria. */
  function Summary(pairs: seq<Pair>, unique: Dict<seq<Embedded>>): (r: string)
    requires HasKeys(unique)
    ensures var first := "Found " + Titles.DecimalString(|pairs|) + " similar criteria across protocols.";
      |first| <= |r| && r[..|first|] == first && (unique.keys == [] ==> r == first)
  {
    JoinFirst(" ", SummaryParts(pairs, unique));
    Join(" ", SummaryParts(pairs, unique))
  }

  /** `_generate_eligibility_summary`. */
  method GenerateSummary(pairs: seq<Pair>, unique: Dict<seq<Embedded>>) returns (r: string)
    requires HasKeys(unique)
    ensures r == Summary(pairs, unique)
  {
    var parts := ["Found " + Titles.DecimalString(|pairs|) + " similar criteria across protocols."];
    for k := 0 to |unique.keys|
      invariant parts == SummaryParts(pairs, unique)[..k + 1]
    {
      var pid := unique.keys[k];
      parts := parts + [pid + " has " + Titles.DecimalString(|unique.values[pid]|) + " unique criteria."];
    }
    assert SummaryParts(pairs, unique)[..|unique.keys| + 1] == SummaryParts(pairs, unique);
    r := Join(" ", parts);
  }

  /** A joined string starts with its first part. */
  lemma JoinFirst(sep: string, parts: seq<string>)
    requires parts != []
    ensures |parts[0]| <= |Join(sep, parts)| && Join(sep, parts)[..|parts[0]|] == parts[0]
    ensures |parts| == 1 ==> Join(sep, parts) == parts[0]
  {
    if |parts| > 1 {
      var rest := sep + Join(sep, parts[1..]);
      assert Join(sep, parts) == parts[0] + rest;
      assert (parts[0] + rest)[..|parts[0]|] == parts[0];
    }
  }

  // ---------------------------------------------------------------------
  // `_format_protocol_context` and `_build_comparison_question`

  const NoSections: string := "No relevant sections found."

  /** One selected section: its heading, a line break and the first 1000
      characters of its raw text; nothing when the protocol lacks it. */
  function Excerpt(sections: map<string, string>, sectionType: string, heading: string): (r: seq<string>)
    ensures |r| <= 1 && forall k :: 0 <= k < |r| ==> |r[k]| <= |heading| + 1001
  {
    if sectionType in sections then [heading + "\n" + PyPrefix(sections[sectionType], 1000)] else []
  }

  function ContextParts(sections: map<string, string>, aspect: string): (parts: seq<string>)
    ensures forall k :: 0 <= k < |parts| ==> |parts[k]| <= 1024
  {
    GroupParts(sections, aspect == "all" || aspect == "eligibility", aspect == "all" || aspect == "design",
               aspect == "all" || aspect == "safety")
  }

  /** The parts of the eligibility, design and safety groups, each group
      only when it is asked for. */
  function GroupParts(sections: map<string, string>, eligibility: bool, design: bool, safety: bool): (parts: seq<string>)
    ensures forall k :: 0 <= k < |parts| ==> |parts[k]| <= 1024
  {
    (if eligibility then
       Excerpt(sections, "inclusion_criteria", "**Inclusion Criteria:**")
       + Excerpt(sections, "exclusion_criteria", "**Exclusion Criteria:**")
     else [])
    + (if design then
         Excerpt(sections, "study_design", "**Study Design:**") + Excerpt(sections, "objectives", "**Objectives:**")
       else [])
    + (if safety then Excerpt(sections, "safety", "**Safety:**") else [])
  }

  /** `_format_protocol_context`, given the protocol's raw text by section
      type. */
  function FormatContext(sections: map<string, string>, aspect: string): (r: string)
    ensures r == NoSections <==> forall t :: t in Selected(aspect) ==> t !in sections
    ensures aspect != "all" && aspect != "eligibility" && aspect != "design" && aspect != "safety" ==> r == NoSections
  {
    var parts := ContextParts(sections, aspect);
    ContextPartsEmpty(sections, aspect);
    if parts == [] then NoSections
    else
      JoinFirst("\n\n", parts);
      assert Join("\n\n", parts)[0] == parts[0][0] == '*';
      Join("\n\n", parts)
  }

  /** The section types an aspect asks for, in the order they are shown. */
  function Selected(aspect: string): seq<string> {
    GroupTypes(aspect == "all" || aspect == "eligibility", aspect == "all" || aspect == "design",
               aspect == "all" || aspect == "safety")
  }

  function GroupTypes(eligibility: bool, design: bool, safety: bool): seq<string> {
    (if eligibility then ["inclusion_criteria", "exclusion_criteria"] else [])
    + (if design then ["study_design", "objectives"] else [])
    + (if safety then ["safety"] else [])
  }

  /** `parts` is what the context shows for the section types `types`:
      empty exactly when the protocol has none of them, at most one part per
      type, and a first part that opens with a bold heading. */
  ghost predicate Summarises(parts: seq<string>, types: seq<string>, sections: map<string, string>) {
    && (parts == [] <==> forall t :: t in types ==> t !in sections)
    && |parts| <= |types|
    && (parts != [] ==> |parts[0]| > 0 && parts[0][0] == '*')
  }

  lemma SummarisesExcerpt(sections: map<string, string>, sectionType: string, heading: string)
    requires |heading| > 0 && heading[0] == '*'
    ensures Summarises(Excerpt(sections, sectionType, heading), [sectionType], sections)
  {
    if sectionType in sections {
      assert Excerpt(sections, sectionType, heading)[0][0] == heading[0];
    }
  }

  lemma SummarisesAppend(a: seq<string>, b: seq<string>, sa: seq<string>, sb: seq<string>, sections: map<string, string>)
    requires Summarises(a, sa, sections) && Summarises(b, sb, sections)
    ensures Summarises(a + b, sa + sb, sections)
  {
    if a == [] {
      assert a + b == b;
    } else {
      assert (a + b)[0] == a[0];
    }
    forall t | t in sa + sb
      ensures t in sa || t in sb
    {
    }
  }

  /** Two excerpts shown one after the other. */
  lemma PairSummarises(sections: map<string, string>, t1: string, h1: string, t2: string, h2: string)
    requires |h1| > 0 && h1[0] == '*' && |h2| > 0 && h2[0] == '*'
    ensures Summarises(Excerpt(sections, t1, h1) + Excerpt(sections, t2, h2), [t1, t2], sections)
  {
    SummarisesExcerpt(sections, t1, h1);
    SummarisesExcerpt(sections, t2, h2);
    SummarisesAppend(Excerpt(sections, t1, h1), Excerpt(sections, t2, h2), [t1], [t2], sections);
    assert [t1] + [t2] == [t1, t2];
  }

  /** The groups asked for show what `GroupTypes` lists. */
  lemma GroupsSummarise(sections: map<string, string>, eligibility: bool, design: bool, safety: bool)
    ensures Summarises(GroupParts(sections, eligibility, design, safety), GroupTypes(eligibility, design, safety), sections)
  {
    PairSummarises(sections, "inclusion_criteria", "**Inclusion Criteria:**", "exclusion_criteria", "**Exclusion Criteria:**");
    PairSummarises(sections, "study_design", "**Study Design:**", "objectives", "**Objectives:**");
    SummarisesExcerpt(sections, "safety", "**Safety:**");
    var a: seq<string> := if eligibility then Excerpt(sections, "inclusion_criteria", "**Inclusion Criteria:**")
                                              + Excerpt(sections, "exclusion_criteria", "**Exclusion Criteria:**") else [];
    var sa: seq<string> := if eligibility then ["inclusion_criteria", "exclusion_criteria"] else [];
    var b: seq<string> := if design then Excerpt(sections, "study_design", "**Study Design:**")
                                         + Excerpt(sections, "objectives", "**Objectives:**") else [];
    var sb: seq<string> := if design then ["study_design", "objectives"] else [];
    var c: seq<string> := if safety then Excerpt(sections, "safety", "**Safety:**") else [];
    var sc: seq<string> := if safety then ["safety"] else [];
    SummarisesAppend(a, b, sa, sb, sections);
    SummarisesAppend(a + b, c, sa + sb, sc, sections);
  }

  lemma ContextPartsEmpty(sections: map<string, string>, aspect: string)
    ensures ContextParts(sections, aspect) == [] <==> forall t :: t in Selected(aspect) ==> t !in sections
    ensures |ContextParts(sections, aspect)| <= |Selected(aspect)|
    ensures ContextParts(sections, aspect) != [] ==> ContextParts(sections, aspect)[0][0] == '*'
  {
    GroupsSummarise(sections, aspect == "all" || aspect == "eligibility", aspect == "all" || aspect == "design",
                    aspect == "all" || aspect == "safety");
  }

  const AllQuestion: string := "Compare these protocols across eligibility criteria, study design, and key differences."

  /** `_build_comparison_question`: the question for the aspect, and the
      question for "all" when the aspect is not one of the known ones. */
  function ComparisonQuestion(aspect: string): (q: string)
    ensures aspect != "eligibility" && aspect != "design" && aspect != "safety" ==> q == AllQuestion
    ensures q == AllQuestion ==> aspect != "eligibility" && aspect != "design" && aspect != "safety"
  {
    if aspect == "eligibility" then "Compare the eligibility criteria (inclusion and exclusion) across these protocols."
    else if aspect == "design" then "Compare the study design and objectives across these protocols."
    else if aspect == "safety" then "Compare the safety monitoring and requirements across these protocols."
    else AllQuestion
  }
}
