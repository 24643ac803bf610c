/** Ingestion of one protocol document: `_store_document` writes the
    parsed document, its sections, its chunks with their embeddings and its
    criterion chunks as eligibility criteria in one transaction, threading
    the keys SQLite hands out from one insert to the next; `ingest_add`
    first decides what to do with a path that is already indexed. */
module Ingest {
  import opened Wrappers
  import opened Documents
  import opened Chunker
  import opened Text
  import Store
  import Sql
  import Vector

  /** The dict `parse_document` returns: the columns of the document row,
      its metadata already serialised by `json.dumps`, its sections and its
      page texts. Both parsers store the resolved path in `filepath`. */
  datatype DocData = DocData(
    filename: string, filepath: string, fileHash: string, fileType: string,
    title: Option<string>, protocolId: Option<string>, version: Option<string>,
    sponsor: Option<string>, indication: Option<string>, phase: Option<string>,
    metadata: string, sections: seq<Section>, pages: seq<string>)

  /** `json.dumps` of the chunker's metadata, which is always empty. */
  const EmptyMetadata := "{}"

  /** `struct.pack(f"{len(v)}f", *v)`: four bytes per component. */
  ghost predicate IsPack(pack: seq<real> -> seq<bv8>) {
    forall v :: |pack(v)| == 4 * |v|
  }

  // ---------------------------------------------------------------------
  // The rows `_store_document` writes

  /** The document row under key `id`, created at `now`. */
  function DocumentRowOf(doc: DocData, id: int, now: int): Store.DocumentRow {
    Store.DocumentRow(id, doc.filename, doc.filepath, doc.fileHash, doc.fileType,
                      doc.title, doc.protocolId, doc.version, doc.sponsor, doc.indication, doc.phase,
                      now, now, Some(doc.metadata))
  }

  /** The row of one section; `parent_section_id` is never set. */
  function SectionRowOf(s: Section, docId: int, id: int, now: int): Store.SectionRow {
    Store.SectionRow(id, docId, s.sectionType, s.sectionNumber, Some(s.title), None,
                     Some(s.level), s.startPage, s.endPage, Some(s.rawText), now)
  }

  /** The rows of the first `n` sections, keyed from `base + 1` on in order. */
  function NewSections(ss: seq<Section>, n: nat, docId: int, base: int, now: int): (r: seq<Store.SectionRow>)
    requires n <= |ss|
    ensures |r| == n
    ensures forall k :: 0 <= k < n ==> r[k] == SectionRowOf(ss[k], docId, base + k + 1, now)
  {
    seq(n, k requires 0 <= k < n => SectionRowOf(ss[k], docId, base + k + 1, now))
  }

  /** `section.get("index", 0)`. */
  function IndexKey(s: Section): int {
    if s.index.Some? then s.index.value else 0
  }

  /** `section_id_map` once the first `n` sections are stored: each
      section's index key mapped to its row's key, a later section
      overwriting an earlier one with the same index. */
  function SectionIdMap(ss: seq<Section>, n: nat, base: int): (m: map<int, int>)
    requires n <= |ss|
    ensures forall key :: key in m ==> base < m[key] <= base + n
  {
    if n == 0 then map[]
    else SectionIdMap(ss, n - 1, base)[IndexKey(ss[n - 1]) := base + n]
  }

  /** `section_id_map.get(chunk.get("section_index"))`. */
  function SectionIdOf(m: map<int, int>, c: Chunk): Option<int> {
    if c.sectionIndex.Some? && c.sectionIndex.value in m then Some(m[c.sectionIndex.value]) else None
  }

  /** The row of the `i`-th chunk. */
  function ChunkRowOf(c: Chunk, i: int, docId: int, sectionId: Option<int>, id: int, now: int): Store.ChunkRow {
    Store.ChunkRow(id, docId, sectionId, i, c.text, Some(c.chunkType), None, None,
                   c.pageNumber, Some(EmptyMetadata), now)
  }

  /** `zip(chunks, embeddings)` stops at the shorter list. */
  function Paired(chunks: seq<Chunk>, embeddings: seq<seq<real>>): nat {
    if |chunks| <= |embeddings| then |chunks| else |embeddings|
  }

  /** The rows of the first `n` chunks, keyed from `base + 1` on. */
  function NewChunks(chunks: seq<Chunk>, n: nat, docId: int, m: map<int, int>, base: int, now: int): (r: seq<Store.ChunkRow>)
    requires n <= |chunks|
    ensures |r| == n
    ensures forall k :: 0 <= k < n ==> r[k] == ChunkRowOf(chunks[k], k, docId, SectionIdOf(m, chunks[k]), base + k + 1, now)
  {
    seq(n, k requires 0 <= k < n => ChunkRowOf(chunks[k], k, docId, SectionIdOf(m, chunks[k]), base + k + 1, now))
  }

  /** One embedding row per stored chunk: the `k`-th references the
      `k`-th new chunk and holds its packed vector. */
  function NewEmbeddings(embeddings: seq<seq<real>>, n: nat, chunkBase: int, base: int,
                         pack: seq<real> -> seq<bv8>): (r: seq<Store.EmbeddingRow>)
    requires n <= |embeddings|
    ensures |r| == n
    ensures forall k :: 0 <= k < n ==> r[k] == Store.EmbeddingRow(base + k + 1, chunkBase + k + 1, pack(embeddings[k]))
  {
    seq(n, k requires 0 <= k < n => Store.EmbeddingRow(base + k + 1, chunkBase + k + 1, pack(embeddings[k])))
  }

  /** A criterion chunk whose `criterion_type` is None, which the NOT NULL
      column refuses. */
  predicate Untyped(c: Chunk) {
    c.chunkType == "criterion" && c.criterionType.None?
  }

  /** The criteria row of a criterion chunk stored under `chunkId`;
      `is_required` takes its default 1. */
  function CriterionRowOf(c: Chunk, docId: int, chunkId: int, id: int): Store.CriterionRow
    requires !Untyped(c)
  {
    Store.CriterionRow(id, docId, if c.criterionType.Some? then c.criterionType.value else "",
                       c.criterionNumber, c.text, c.category, Some(1), Some(chunkId), None)
  }

  /** No chunk among the first `n` is refused. */
  predicate AllTyped(chunks: seq<Chunk>, n: nat)
    requires n <= |chunks|
  {
    forall k :: 0 <= k < n ==> !Untyped(chunks[k])
  }

  /** The criteria rows of the first `n` chunks: one per criterion chunk,
      keyed from `base + 1` on in chunk order. */
  function NewCriteria(chunks: seq<Chunk>, n: nat, docId: int, chunkBase: int, base: int): (r: seq<Store.CriterionRow>)
    requires n <= |chunks| && AllTyped(chunks, n)
    ensures |r| <= n
    decreases n
  {
    if n == 0 then []
    else
      var prev := NewCriteria(chunks, n - 1, docId, chunkBase, base);
      if chunks[n - 1].chunkType == "criterion"
      then prev + [CriterionRowOf(chunks[n - 1], docId, chunkBase + n, base + |prev| + 1)]
      else prev
  }

  /** The tables once the document row and its section rows are written. */
  function Registered(t: Store.Tables, doc: DocData, now: int): Store.Tables {
    var docId := t.documentSeq + 1;
    t.(documents := t.documents + [DocumentRowOf(doc, docId, now)],
       documentSeq := docId,
       sections := t.sections + NewSections(doc.sections, |doc.sections|, docId, t.sectionSeq, now),
       sectionSeq := t.sectionSeq + |doc.sections|)
  }

  /** The chunk row and the embedding row the `i`-th chunk iteration adds
      to the tables `a`, each under its table's next key. */
  function ChunkRowsStored(a: Store.Tables, t: Store.Tables, doc: DocData, chunks: seq<Chunk>,
                           embeddings: seq<seq<real>>, i: nat, pack: seq<real> -> seq<bv8>, now: int): Store.Tables
    requires i < |chunks| && i < |embeddings|
  {
    var chunkId := a.chunkSeq + 1;
    a.(chunks := a.chunks + [ChunkRowOf(chunks[i], i, t.documentSeq + 1, SectionIdOf(SectionIdMap(doc.sections, |doc.sections|, t.sectionSeq), chunks[i]), chunkId, now)],
       chunkSeq := chunkId,
       embeddings := a.embeddings + [Store.EmbeddingRow(a.embeddingSeq + 1, chunkId, pack(embeddings[i]))],
       embeddingSeq := a.embeddingSeq + 1)
  }

  /** What the `i`-th chunk iteration adds to the tables `a`: the chunk row,
      its embedding row and, for a criterion chunk, its criteria row. */
  function ChunkStored(a: Store.Tables, t: Store.Tables, doc: DocData, chunks: seq<Chunk>,
                       embeddings: seq<seq<real>>, i: nat, pack: seq<real> -> seq<bv8>, now: int): Store.Tables
    requires i < |chunks| && i < |embeddings| && !Untyped(chunks[i])
  {
    var b := ChunkRowsStored(a, t, doc, chunks, embeddings, i, pack, now);
    if chunks[i].chunkType == "criterion"
    then b.(criteria := b.criteria + [CriterionRowOf(chunks[i], t.documentSeq + 1, a.chunkSeq + 1, b.criterionSeq + 1)],
            criterionSeq := b.criterionSeq + 1)
    else b
  }

  /** The same tables described row by row: the new rows of every table
      appended after the old ones. */
  function StoredRows(t: Store.Tables, doc: DocData, chunks: seq<Chunk>, embeddings: seq<seq<real>>,
                      n: nat, pack: seq<real> -> seq<bv8>, now: int): Store.Tables
    requires n <= |chunks| && n <= |embeddings| && AllTyped(chunks, n)
  {
    var docId := t.documentSeq + 1;
    var criteria := NewCriteria(chunks, n, docId, t.chunkSeq, t.criterionSeq);
    Registered(t, doc, now).(
       chunks := t.chunks + NewChunks(chunks, n, docId, SectionIdMap(doc.sections, |doc.sections|, t.sectionSeq), t.chunkSeq, now),
       chunkSeq := t.chunkSeq + n,
       embeddings := t.embeddings + NewEmbeddings(embeddings, n, t.chunkSeq, t.embeddingSeq, pack),
       embeddingSeq := t.embeddingSeq + n,
       criteria := t.criteria + criteria,
       criterionSeq := t.criterionSeq + |criteria|)
  }

  /** The tables after a committed `_store_document`. */
  function Stored(t: Store.Tables, doc: DocData, chunks: seq<Chunk>, embeddings: seq<seq<real>>,
                  pack: seq<real> -> seq<bv8>, now: int): (r: Store.Tables)
    requires AllTyped(chunks, Paired(chunks, embeddings))
    ensures t.documents < r.documents && t.sections <= r.sections && t.chunks <= r.chunks
      && t.criteria <= r.criteria && t.embeddings <= r.embeddings
    ensures r.documentSeq == t.documentSeq + 1 && r.sectionSeq == t.sectionSeq + |doc.sections|
      && r.chunkSeq == t.chunkSeq + Paired(chunks, embeddings) && r.embeddingSeq == t.embeddingSeq + Paired(chunks, embeddings)
      && r.criterionSeq == t.criterionSeq + |r.criteria| - |t.criteria|
  {
    StoredRows(t, doc, chunks, embeddings, Paired(chunks, embeddings), pack, now)
  }

  // ---------------------------------------------------------------------
  // Properties of the rows written

  /** Each section's index key maps to the key of a section row with that
      index, and of the last such section. */
  lemma {:induction false} SectionIdMapSpec(ss: seq<Section>, n: nat, base: int, key: int)
    requires n <= |ss|
    ensures key in SectionIdMap(ss, n, base) <==> exists j :: 0 <= j < n && IndexKey(ss[j]) == key
    ensures key in SectionIdMap(ss, n, base) ==>
      exists j :: 0 <= j < n && IndexKey(ss[j]) == key && SectionIdMap(ss, n, base)[key] == base + j + 1
        && forall j' :: j < j' < n ==> IndexKey(ss[j']) != key
  {
    if n > 0 {
      SectionIdMapSpec(ss, n - 1, base, key);
      if IndexKey(ss[n - 1]) == key {
        assert SectionIdMap(ss, n, base)[key] == base + (n - 1) + 1;
      } else if key in SectionIdMap(ss, n, base) {
        var j :| 0 <= j < n - 1 && IndexKey(ss[j]) == key && SectionIdMap(ss, n - 1, base)[key] == base + j + 1
                 && forall j' :: j < j' < n - 1 ==> IndexKey(ss[j']) != key;
        assert SectionIdMap(ss, n, base)[key] == base + j + 1;
      }
    }
  }

  /** A chunk's `section_id` is the key of the last section whose index is
      the chunk's `section_index`, and NULL when there is none. */
  lemma ChunkSectionId(ss: seq<Section>, base: int, c: Chunk)
    ensures SectionIdOf(SectionIdMap(ss, |ss|, base), c).None? <==>
      c.sectionIndex.None? || forall j :: 0 <= j < |ss| ==> IndexKey(ss[j]) != c.sectionIndex.value
    ensures SectionIdOf(SectionIdMap(ss, |ss|, base), c).Some? ==>
      exists j :: 0 <= j < |ss| && IndexKey(ss[j]) == c.sectionIndex.value
        && SectionIdOf(SectionIdMap(ss, |ss|, base), c).value == base + j + 1
        && forall j' :: j < j' < |ss| ==> IndexKey(ss[j']) != c.sectionIndex.value
  {
    if c.sectionIndex.Some? {
      SectionIdMapSpec(ss, |ss|, base, c.sectionIndex.value);
    }
  }

  /** The criteria rows: the `i`-th stored chunk has one exactly when it is
      a criterion chunk, and that row copies its text, type, number and
      category and belongs to the new document. */
  lemma {:induction false} NewCriteriaSpec(chunks: seq<Chunk>, n: nat, docId: int, chunkBase: int, base: int, i: int)
    requires n <= |chunks| && AllTyped(chunks, n) && 0 <= i < n
    ensures (exists c :: c in NewCriteria(chunks, n, docId, chunkBase, base) && c.chunkId == Some(chunkBase + i + 1))
            <==> chunks[i].chunkType == "criterion"
    ensures forall c :: c in NewCriteria(chunks, n, docId, chunkBase, base) && c.chunkId == Some(chunkBase + i + 1) ==>
      c.documentId == docId && c.criterionText == chunks[i].text && Some(c.criterionType) == chunks[i].criterionType
      && c.criterionNumber == chunks[i].criterionNumber && c.category == chunks[i].category
    decreases n
  {
    var r := NewCriteria(chunks, n, docId, chunkBase, base);
    var prev := NewCriteria(chunks, n - 1, docId, chunkBase, base);
    NewCriteriaChunks(chunks, n - 1, docId, chunkBase, base);
    if i < n - 1 {
      NewCriteriaSpec(chunks, n - 1, docId, chunkBase, base, i);
      forall c | c in r && c.chunkId == Some(chunkBase + i + 1) ensures c in prev {
      }
    } else {
      forall c | c in prev ensures c.chunkId != Some(chunkBase + i + 1) {
      }
      if chunks[i].chunkType == "criterion" {
        assert r[|prev|] in r;
      }
    }
  }

  /** Every criteria row of the first `n` chunks references one of them. */
  lemma {:induction false} NewCriteriaChunks(chunks: seq<Chunk>, n: nat, docId: int, chunkBase: int, base: int)
    requires n <= |chunks| && AllTyped(chunks, n)
    ensures forall c :: c in NewCriteria(chunks, n, docId, chunkBase, base) ==>
      c.documentId == docId && c.chunkId.Some? && chunkBase < c.chunkId.value <= chunkBase + n
    decreases n
  {
    if n > 0 {
      NewCriteriaChunks(chunks, n - 1, docId, chunkBase, base);
    }
  }

  /** Every stored chunk has exactly one embedding row, whose blob decodes
      back to a vector of the embedding's dimension. */
  lemma OneEmbeddingPerChunk(embeddings: seq<seq<real>>, n: nat, chunkBase: int, base: int,
                             pack: seq<real> -> seq<bv8>, unpack: seq<bv8> -> seq<real>, i: int)
    requires n <= |embeddings| && 0 <= i < n && IsPack(pack) && Vector.IsUnpack(unpack)
    ensures exists e :: e in NewEmbeddings(embeddings, n, chunkBase, base, pack) && e.chunkId == chunkBase + i + 1
    ensures forall e :: e in NewEmbeddings(embeddings, n, chunkBase, base, pack) && e.chunkId == chunkBase + i + 1 ==>
      e == NewEmbeddings(embeddings, n, chunkBase, base, pack)[i]
      && Vector.Decode(e.embedding, unpack).Ok? && |Vector.Decode(e.embedding, unpack).value| == |embeddings[i]|
  {
    var r := NewEmbeddings(embeddings, n, chunkBase, base, pack);
    assert r[i] in r;
  }

  /** The stored document: one row per section and per paired chunk, the
      chunk indexes 0, 1, … in order, and every section, chunk and criteria
      row carrying the new document's key. */
  lemma StoredSpec(t: Store.Tables, doc: DocData, chunks: seq<Chunk>, embeddings: seq<seq<real>>,
                   pack: seq<real> -> seq<bv8>, now: int)
    requires AllTyped(chunks, Paired(chunks, embeddings))
    ensures var r := Stored(t, doc, chunks, embeddings, pack, now);
      var docId := t.documentSeq + 1;
      var n := Paired(chunks, embeddings);
      && |r.documents| == |t.documents| + 1 && r.documents[|t.documents|].id == docId
      && |r.sections| == |t.sections| + |doc.sections|
      && |r.chunks| == |t.chunks| + n && |r.embeddings| == |t.embeddings| + n
      && (forall k :: 0 <= k < n ==>
            r.chunks[|t.chunks| + k].chunkIndex == k && r.chunks[|t.chunks| + k].chunkText == chunks[k].text
            && r.chunks[|t.chunks| + k].documentId == docId)
      && (forall k :: |t.sections| <= k < |r.sections| ==> r.sections[k].documentId == docId)
      && (forall k :: |t.criteria| <= k < |r.criteria| ==> r.criteria[k].documentId == docId)
  {
    var r := Stored(t, doc, chunks, embeddings, pack, now);
    var docId := t.documentSeq + 1;
    var n := Paired(chunks, embeddings);
    var sectionRows := NewSections(doc.sections, |doc.sections|, docId, t.sectionSeq, now);
    var chunkRows := NewChunks(chunks, n, docId, SectionIdMap(doc.sections, |doc.sections|, t.sectionSeq), t.chunkSeq, now);
    var criteria := NewCriteria(chunks, n, docId, t.chunkSeq, t.criterionSeq);
    assert r.documents == t.documents + [DocumentRowOf(doc, docId, now)];
    assert r.sections == t.sections + sectionRows;
    assert r.chunks == t.chunks + chunkRows;
    assert r.criteria == t.criteria + criteria;
    forall k | 0 <= k < n
      ensures r.chunks[|t.chunks| + k].chunkIndex == k && r.chunks[|t.chunks| + k].chunkText == chunks[k].text
              && r.chunks[|t.chunks| + k].documentId == docId
    {
      assert r.chunks[|t.chunks| + k] == chunkRows[k];
    }
    SectionsOwned(t.sections, sectionRows, docId);
    NewCriteriaChunks(chunks, n, docId, t.chunkSeq, t.criterionSeq);
    CriteriaOwned(t.criteria, criteria, docId);
  }

  /** Section rows appended after `prior` that all belong to `docId`
      occupy every position from `|prior|` on. */
  lemma SectionsOwned(prior: seq<Store.SectionRow>, added: seq<Store.SectionRow>, docId: int)
    requires forall k :: 0 <= k < |added| ==> added[k].documentId == docId
    ensures forall k :: |prior| <= k < |prior + added| ==> (prior + added)[k].documentId == docId
  {
    forall k | |prior| <= k < |prior + added| ensures (prior + added)[k].documentId == docId {
      assert (prior + added)[k] == added[k - |prior|];
    }
  }

  /** Criteria rows appended after `prior` that all belong to `docId`
      occupy every position from `|prior|` on. */
  lemma CriteriaOwned(prior: seq<Store.CriterionRow>, added: seq<Store.CriterionRow>, docId: int)
    requires forall c :: c in added ==> c.documentId == docId
    ensures forall k :: |prior| <= k < |prior + added| ==> (prior + added)[k].documentId == docId
  {
    forall k | |prior| <= k < |prior + added| ensures (prior + added)[k].documentId == docId {
      assert added[k - |prior|] in added;
    }
  }

  // ---------------------------------------------------------------------
  // `_store_document`

  /** A fresh chunk key has no embedding yet. */
  lemma FreshChunkUnembedded(t: Store.Tables, id: int)
    requires Store.Valid(t) && id > t.chunkSeq
    ensures id !in Store.Column(t.embeddings, Store.EmbeddedChunk)
  {
    forall e | e in t.embeddings ensures e.chunkId != id {
      assert Store.EmbeddingLinked(t, e);
      var c := Store.ColumnWitness(t.chunks, Store.ChunkKey, e.chunkId);
    }
    Store.NotInColumn(t.embeddings, Store.EmbeddedChunk, id);
  }

  /** A key in the section map names a stored section. */
  lemma MappedSectionStored(t: Store.Tables, doc: DocData, docId: int, now: int, key: int)
    requires key in SectionIdMap(doc.sections, |doc.sections|, t.sectionSeq)
    ensures SectionIdMap(doc.sections, |doc.sections|, t.sectionSeq)[key]
            in Store.Column(t.sections + NewSections(doc.sections, |doc.sections|, docId, t.sectionSeq, now), Store.SectionKey)
  {
    SectionIdMapSpec(doc.sections, |doc.sections|, t.sectionSeq, key);
    var rows := t.sections + NewSections(doc.sections, |doc.sections|, docId, t.sectionSeq, now);
    var j :| 0 <= j < |doc.sections| && IndexKey(doc.sections[j]) == key
             && SectionIdMap(doc.sections, |doc.sections|, t.sectionSeq)[key] == t.sectionSeq + j + 1;
    assert rows[|t.sections| + j].id == t.sectionSeq + j + 1;
    Store.InColumn(rows, Store.SectionKey, rows[|t.sections| + j]);
  }

  /** One more chunk iteration appends one chunk row, one embedding row and,
      for a criterion chunk, one criteria row. */
  lemma StepRows(t: Store.Tables, doc: DocData, chunks: seq<Chunk>, embeddings: seq<seq<real>>,
                 i: nat, pack: seq<real> -> seq<bv8>, now: int)
    requires i < |chunks| && i < |embeddings| && AllTyped(chunks, i + 1)
    ensures ChunkStored(StoredRows(t, doc, chunks, embeddings, i, pack, now), t, doc, chunks, embeddings, i, pack, now)
            == StoredRows(t, doc, chunks, embeddings, i + 1, pack, now)
  {
    var docId := t.documentSeq + 1;
    var m := SectionIdMap(doc.sections, |doc.sections|, t.sectionSeq);
    var chunkRows := NewChunks(chunks, i, docId, m, t.chunkSeq, now);
    var chunkRow := ChunkRowOf(chunks[i], i, docId, SectionIdOf(m, chunks[i]), t.chunkSeq + i + 1, now);
    assert NewChunks(chunks, i + 1, docId, m, t.chunkSeq, now) == chunkRows + [chunkRow];
    Store.AppendAssoc(t.chunks, chunkRows, [chunkRow]);
    var embeddingRows := NewEmbeddings(embeddings, i, t.chunkSeq, t.embeddingSeq, pack);
    var embeddingRow := Store.EmbeddingRow(t.embeddingSeq + i + 1, t.chunkSeq + i + 1, pack(embeddings[i]));
    assert NewEmbeddings(embeddings, i + 1, t.chunkSeq, t.embeddingSeq, pack) == embeddingRows + [embeddingRow];
    Store.AppendAssoc(t.embeddings, embeddingRows, [embeddingRow]);
    var criteria := NewCriteria(chunks, i, docId, t.chunkSeq, t.criterionSeq);
    if chunks[i].chunkType == "criterion" {
      Store.AppendAssoc(t.criteria, criteria,
                        [CriterionRowOf(chunks[i], docId, t.chunkSeq + i + 1, t.criterionSeq + |criteria| + 1)]);
    }
    var a := StoredRows(t, doc, chunks, embeddings, i, pack, now);
    var b := StoredRows(t, doc, chunks, embeddings, i + 1, pack, now);
    var c := ChunkStored(a, t, doc, chunks, embeddings, i, pack, now);
    assert c.chunks == b.chunks && c.embeddings == b.embeddings;
    assert c.criteria == b.criteria && c.criterionSeq == b.criterionSeq;
    assert c.documents == b.documents && c.sections == b.sections;
  }

  /** Before the chunk loop the tables are `Registered`. */
  lemma RowsStart(t: Store.Tables, doc: DocData, chunks: seq<Chunk>, embeddings: seq<seq<real>>,
                  pack: seq<real> -> seq<bv8>, now: int)
    ensures StoredRows(t, doc, chunks, embeddings, 0, pack, now) == Registered(t, doc, now)
  {
    assert NewChunks(chunks, 0, t.documentSeq + 1, SectionIdMap(doc.sections, |doc.sections|, t.sectionSeq), t.chunkSeq, now) == [];
    assert NewEmbeddings(embeddings, 0, t.chunkSeq, t.embeddingSeq, pack) == [];
    assert t.chunks + [] == t.chunks && t.embeddings + [] == t.embeddings && t.criteria + [] == t.criteria;
  }

  /** During the chunk loop the new document row and the section rows stay
      as `Registered` wrote them. */
  lemma RowsRegistered(t: Store.Tables, doc: DocData, chunks: seq<Chunk>, embeddings: seq<seq<real>>,
                       i: nat, pack: seq<real> -> seq<bv8>, now: int)
    requires i <= |chunks| && i <= |embeddings| && AllTyped(chunks, i)
    ensures var r := StoredRows(t, doc, chunks, embeddings, i, pack, now);
      r.sections == Registered(t, doc, now).sections && t.documentSeq + 1 in Store.DocumentIds(r)
  {
    var r := StoredRows(t, doc, chunks, embeddings, i, pack, now);
    var row := DocumentRowOf(doc, t.documentSeq + 1, now);
    assert r.documents == t.documents + [row];
    Store.InColumn(r.documents, Store.DocumentKey, row);
  }

  /** The document insert and the section loop produce `Registered`. */
  lemma RegisteredStep(t: Store.Tables, doc: DocData, now: int)
    requires Store.Valid(t) && !Store.PathTaken(t, doc.filepath)
    ensures var d := Store.AddDocument(t, DocumentRowOf(doc, 0, 0), now);
      d.(sections := d.sections + NewSections(doc.sections, |doc.sections|, d.documentSeq, d.sectionSeq, now),
         sectionSeq := d.sectionSeq + |doc.sections|) == Registered(t, doc, now)
  {
  }

  /** The chunk and embedding inserts of one chunk iteration as the
      database performs them: both are accepted and lead to
      `ChunkRowsStored`. */
  lemma ChunkStep(a: Store.Tables, t: Store.Tables, doc: DocData, chunks: seq<Chunk>, embeddings: seq<seq<real>>,
                  i: nat, pack: seq<real> -> seq<bv8>, now: int)
    requires i < |chunks| && i < |embeddings|
    requires Store.Valid(a) && t.documentSeq + 1 in Store.DocumentIds(a)
    requires Store.ChunkAccepted(a, ChunkRowOf(chunks[i], i, t.documentSeq + 1,
                                              SectionIdOf(SectionIdMap(doc.sections, |doc.sections|, t.sectionSeq), chunks[i]), 0, 0))
    ensures var row := ChunkRowOf(chunks[i], i, t.documentSeq + 1, SectionIdOf(SectionIdMap(doc.sections, |doc.sections|, t.sectionSeq), chunks[i]), 0, 0);
      var mid := Store.AddChunk(a, row, now);
      && Store.EmbeddingAccepted(mid, a.chunkSeq + 1)
      && Store.AddEmbedding(mid, a.chunkSeq + 1, pack(embeddings[i])) == ChunkRowsStored(a, t, doc, chunks, embeddings, i, pack, now)
  {
    var row := ChunkRowOf(chunks[i], i, t.documentSeq + 1, SectionIdOf(SectionIdMap(doc.sections, |doc.sections|, t.sectionSeq), chunks[i]), 0, 0);
    var mid := Store.AddChunk(a, row, now);
    FreshChunkUnembedded(a, a.chunkSeq + 1);
    assert mid.embeddings == a.embeddings;
  }

  /** The criteria insert of a typed criterion chunk is accepted and
      completes `ChunkStored`. */
  lemma CriterionStep(a: Store.Tables, t: Store.Tables, doc: DocData, chunks: seq<Chunk>, embeddings: seq<seq<real>>,
                      i: nat, pack: seq<real> -> seq<bv8>, now: int)
    requires i < |chunks| && i < |embeddings|
    requires chunks[i].chunkType == "criterion" && chunks[i].criterionType.Some?
    requires t.documentSeq + 1 in Store.DocumentIds(a)
    requires Store.Valid(ChunkRowsStored(a, t, doc, chunks, embeddings, i, pack, now))
    ensures var b := ChunkRowsStored(a, t, doc, chunks, embeddings, i, pack, now);
      var crow := CriterionRowOf(chunks[i], t.documentSeq + 1, a.chunkSeq + 1, 0);
      Store.CriterionAccepted(b, crow) && Store.AddCriterion(b, crow) == ChunkStored(a, t, doc, chunks, embeddings, i, pack, now)
  {
    var b := ChunkRowsStored(a, t, doc, chunks, embeddings, i, pack, now);
    assert Store.DocumentIds(b) == Store.DocumentIds(a);
    Store.InColumn(b.chunks, Store.ChunkKey, b.chunks[|a.chunks|]);
  }

  /** The tables once the section loop has written the first `i` sections. */
  function SectionsUpTo(t: Store.Tables, doc: DocData, docId: int, i: nat, now: int): Store.Tables
    requires i <= |doc.sections|
  {
    t.(sections := t.sections + NewSections(doc.sections, i, docId, t.sectionSeq, now),
       sectionSeq := t.sectionSeq + i)
  }

  /** One iteration of the section loop as the database performs it: the
      section insert is accepted, appends the next row and `section_id_map`
      gains the section's index. */
  lemma SectionStep(t: Store.Tables, doc: DocData, docId: int, i: nat, now: int)
    requires i < |doc.sections|
    requires Store.Valid(SectionsUpTo(t, doc, docId, i, now)) && docId in Store.DocumentIds(t)
    ensures var a := SectionsUpTo(t, doc, docId, i, now);
      var row := SectionRowOf(doc.sections[i], docId, 0, 0);
      && Store.SectionAccepted(a, row)
      && Store.AddSection(a, row, now) == SectionsUpTo(t, doc, docId, i + 1, now)
      && a.sectionSeq + 1 == t.sectionSeq + i + 1
  {
    var a := SectionsUpTo(t, doc, docId, i, now);
    assert Store.DocumentIds(a) == Store.DocumentIds(t);
    var prefix := NewSections(doc.sections, i, docId, t.sectionSeq, now);
    var last := SectionRowOf(doc.sections[i], docId, t.sectionSeq + i + 1, now);
    assert NewSections(doc.sections, i + 1, docId, t.sectionSeq, now) == prefix + [last];
    Store.AppendAssoc(t.sections, prefix, [last]);
  }

  /** Before the section loop nothing is added; after it every section is. */
  lemma SectionsBounds(t: Store.Tables, doc: DocData, docId: int, now: int)
    ensures SectionsUpTo(t, doc, docId, 0, now) == t
    ensures SectionsUpTo(t, doc, docId, |doc.sections|, now)
            == t.(sections := t.sections + NewSections(doc.sections, |doc.sections|, docId, t.sectionSeq, now),
                  sectionSeq := t.sectionSeq + |doc.sections|)
  {
    assert t.sections + [] == t.sections;
  }

  /** The section loop of `_store_document`: one row per section, and
      `section_id_map` built alongside. */
  method StoreSections(db: Store.Database, doc: DocData, docId: int, now: int) returns (sectionIds: map<int, int>)
    requires Store.Valid(db.tables) && docId in Store.DocumentIds(db.tables)
    modifies db
    ensures Store.Valid(db.tables)
    ensures db.tables == old(db.tables).(
      sections := old(db.tables).sections + NewSections(doc.sections, |doc.sections|, docId, old(db.tables).sectionSeq, now),
      sectionSeq := old(db.tables).sectionSeq + |doc.sections|)
    ensures sectionIds == SectionIdMap(doc.sections, |doc.sections|, old(db.tables).sectionSeq)
  {
    ghost var t := db.tables;
    sectionIds := map[];
    var i := 0;
    SectionsBounds(t, doc, docId, now);
    while i < |doc.sections|
      invariant 0 <= i <= |doc.sections|
      invariant Store.Valid(db.tables) && db.tables == SectionsUpTo(t, doc, docId, i, now)
      invariant sectionIds == SectionIdMap(doc.sections, i, t.sectionSeq)
    {
      var sectionId := StoreSection(db, t, doc, docId, i, now);
      assert SectionIdMap(doc.sections, i + 1, t.sectionSeq) == sectionIds[IndexKey(doc.sections[i]) := sectionId];
      sectionIds := sectionIds[IndexKey(doc.sections[i]) := sectionId];
      i := i + 1;
    }
  }

  /** One iteration of the section loop: the section's row, whose key is
      returned (`cur.lastrowid`). */
  method StoreSection(db: Store.Database, ghost t: Store.Tables, doc: DocData, docId: int, i: nat, now: int)
    returns (sectionId: int)
    requires i < |doc.sections| && docId in Store.DocumentIds(t)
    requires Store.Valid(db.tables) && db.tables == SectionsUpTo(t, doc, docId, i, now)
    modifies db
    ensures sectionId == t.sectionSeq + i + 1
    ensures Store.Valid(db.tables) && db.tables == SectionsUpTo(t, doc, docId, i + 1, now)
  {
    SectionStep(t, doc, docId, i, now);
    var added := db.InsertSection(SectionRowOf(doc.sections[i], docId, 0, 0), now);
    sectionId := added.value;
  }

  /** One iteration of the chunk loop of `_store_document`: the chunk row,
      its embedding row and, for a criterion chunk, its criteria row. The
      result is false when the criteria row is refused; the caller then
      rolls the transaction back. */
  method StoreChunk(db: Store.Database, saved: Store.Tables, doc: DocData, chunks: seq<Chunk>,
                    embeddings: seq<seq<real>>, i: nat, sectionIds: map<int, int>,
                    pack: seq<real> -> seq<bv8>, now: int) returns (stored: bool)
    requires i < |chunks| && i < |embeddings|
    requires Store.Valid(db.tables) && saved.documentSeq + 1 in Store.DocumentIds(db.tables)
    requires db.tables.sections == Registered(saved, doc, now).sections
    requires sectionIds == SectionIdMap(doc.sections, |doc.sections|, saved.sectionSeq)
    modifies db
    ensures stored <==> !Untyped(chunks[i])
    ensures stored ==> Store.Valid(db.tables)
                       && db.tables == ChunkStored(old(db.tables), saved, doc, chunks, embeddings, i, pack, now)
  {
    ghost var a := db.tables;
    var chunkId := StoreChunkRows(db, saved, doc, chunks, embeddings, i, sectionIds, pack, now);
    var chunk := chunks[i];
    if chunk.chunkType == "criterion" {
      if chunk.criterionType.None? {
        // the NOT NULL constraint on `criterion_type` refuses the row
        return false;
      }
      CriterionStep(a, saved, doc, chunks, embeddings, i, pack, now);
      var criterion := db.InsertCriterion(CriterionRowOf(chunk, saved.documentSeq + 1, chunkId, 0));
    }
    stored := true;
  }

  /** The chunk and embedding inserts of one chunk iteration; the result is
      the new chunk's key (`cur.lastrowid`). */
  method StoreChunkRows(db: Store.Database, saved: Store.Tables, doc: DocData, chunks: seq<Chunk>,
                        embeddings: seq<seq<real>>, i: nat, sectionIds: map<int, int>,
                        pack: seq<real> -> seq<bv8>, now: int) returns (chunkId: int)
    requires i < |chunks| && i < |embeddings|
    requires Store.Valid(db.tables) && saved.documentSeq + 1 in Store.DocumentIds(db.tables)
    requires db.tables.sections == Registered(saved, doc, now).sections
    requires sectionIds == SectionIdMap(doc.sections, |doc.sections|, saved.sectionSeq)
    modifies db
    ensures chunkId == old(db.tables).chunkSeq + 1
    ensures saved.documentSeq + 1 in Store.DocumentIds(old(db.tables))
    ensures Store.Valid(db.tables)
            && db.tables == ChunkRowsStored(old(db.tables), saved, doc, chunks, embeddings, i, pack, now)
  {
    var docId := saved.documentSeq + 1;
    var sectionId := SectionIdOf(sectionIds, chunks[i]);
    if sectionId.Some? {
      MappedSectionStored(saved, doc, docId, now, chunks[i].sectionIndex.value);
    }
    ChunkStep(db.tables, saved, doc, chunks, embeddings, i, pack, now);
    var added := db.InsertChunk(ChunkRowOf(chunks[i], i, docId, sectionId, 0, 0), now);
    chunkId := added.value;
    var embedded := db.InsertEmbedding(chunkId, pack(embeddings[i]));
  }

  /** The chunk loop of `_store_document`, up to the first refused
      criteria row. */
  method StoreChunks(db: Store.Database, saved: Store.Tables, doc: DocData, chunks: seq<Chunk>,
                     embeddings: seq<seq<real>>, sectionIds: map<int, int>,
                     pack: seq<real> -> seq<bv8>, now: int) returns (stored: bool)
    requires Store.Valid(db.tables) && db.tables == Registered(saved, doc, now)
    requires sectionIds == SectionIdMap(doc.sections, |doc.sections|, saved.sectionSeq)
    modifies db
    ensures stored <==> AllTyped(chunks, Paired(chunks, embeddings))
    ensures stored ==> Store.Valid(db.tables)
                       && db.tables == Stored(saved, doc, chunks, embeddings, pack, now)
  {
    var n := Paired(chunks, embeddings);
    var i := 0;
    RowsStart(saved, doc, chunks, embeddings, pack, now);
    while i < n
      invariant 0 <= i <= n && AllTyped(chunks, i)
      invariant Store.Valid(db.tables)
      invariant db.tables == StoredRows(saved, doc, chunks, embeddings, i, pack, now)
    {
      RowsRegistered(saved, doc, chunks, embeddings, i, pack, now);
      var ok := StoreChunk(db, saved, doc, chunks, embeddings, i, sectionIds, pack, now);
      if !ok {
        return false;
      }
      StepRows(saved, doc, chunks, embeddings, i, pack, now);
      i := i + 1;
    }
    stored := true;
  }

  /** `_store_document`: on success the tables hold exactly the new rows
      (`Stored`) and the result is the new document's key; when an insert
      fails the transaction rolls back and nothing changes. */
  method StoreDocument(db: Store.Database, doc: DocData, chunks: seq<Chunk>, embeddings: seq<seq<real>>,
                       pack: seq<real> -> seq<bv8>, now: int) returns (r: Result<int, string>)
    requires Store.Valid(db.tables)
    modifies db
    ensures Store.Valid(db.tables)
    ensures r.Ok? <==> !Store.PathTaken(old(db.tables), doc.filepath) && AllTyped(chunks, Paired(chunks, embeddings))
    ensures r.Err? ==> db.tables == old(db.tables)
    ensures r.Ok? ==> r.value == old(db.tables).documentSeq + 1
                      && db.tables == Stored(old(db.tables), doc, chunks, embeddings, pack, now)
  {
    var saved := db.tables;
    var inserted := db.InsertDocument(DocumentRowOf(doc, 0, 0), now);
    if inserted.Err? {
      return Err(inserted.error);
    }
    var docId := inserted.value;
    var sectionIds := StoreSections(db, doc, docId, now);
    RegisteredStep(saved, doc, now);
    var stored := StoreChunks(db, saved, doc, chunks, embeddings, sectionIds, pack, now);
    if !stored {
      db.tables := saved;
      return Err("NOT NULL constraint failed: eligibility_criteria.criterion_type");
    }
    r := Ok(docId);
  }

  // ---------------------------------------------------------------------
  // `ingest_add`

  /** `if protocol_id:` and `if title:`: a given, non-empty value replaces
      the parsed one. */
  function Override(given: Option<string>, parsed: Option<string>): (r: Option<string>)
    ensures r == given || r == parsed
    ensures r != parsed ==> r.Some? && r.value != ""
    ensures given.Some? && given.value != "" ==> r == given
  {
    if given.Some? && given.value != "" then given else parsed
  }

  /** The parsed document with the command-line overrides applied. */
  function Overridden(doc: DocData, protocolId: Option<string>, title: Option<string>): DocData {
    doc.(protocolId := Override(protocolId, doc.protocolId), title := Override(title, doc.title))
  }

  /** `embed_batch` over the chunk texts: one vector per chunk, in order. */
  function EmbedAll(chunks: seq<Chunk>, embed: string -> seq<real>): (r: seq<seq<real>>)
    ensures |r| == |chunks|
    ensures forall k :: 0 <= k < |chunks| ==> r[k] == embed(chunks[k].text)
  {
    seq(|chunks|, k requires 0 <= k < |chunks| => embed(chunks[k].text))
  }

  /** The tables once `--force` has removed the document indexed under
      `path`, if there is one. */
  function Cleared(t: Store.Tables, path: string): Store.Tables {
    var existing := Store.DocumentByPath(t, path);
    if existing.Some? then Store.Deleted(t, existing.value.id) else t
  }

  /** Removing the document stored under a path frees the path for the new
      insert; with no such document nothing is removed. */
  lemma ClearedFreesPath(t: Store.Tables, path: string)
    requires Store.Valid(t)
    ensures !Store.PathTaken(Cleared(t, path), path)
    ensures !Store.PathTaken(t, path) ==> Cleared(t, path) == t
  {
    var existing := Store.DocumentByPath(t, path);
    if existing.Some? {
      var d := existing.value;
      var r := Store.Deleted(t, d.id);
      forall e | e in r.documents ensures e.filepath != path {
        Sql.WhereMember(t.documents, Store.DocumentOther(d.id), e);
      }
      Store.NotInColumn(r.documents, Store.Filepath, path);
    }
  }

  /** Every criterion chunk of one section carries a criterion type. */
  lemma SectionChunksTyped(sec: Section, chunkSize: int, chunkOverlap: int)
    ensures forall c :: c in SectionChunks(sec, chunkSize, chunkOverlap) ==> !Untyped(c)
  {
    var r := SectionChunks(sec, chunkSize, chunkOverlap);
    if !IsBlank(sec.rawText) {
      if IsCriteriaSection(sec.sectionType) {
        CriteriaChunksWellFormed(sec.rawText, sec.sectionType, sec.index);
        forall c | c in r ensures !Untyped(c) {
          var k :| 0 <= k < |r| && r[k] == c;
          assert WellFormedCriterion(r[k], 10, sec.sectionType, sec.index);
        }
      } else {
        forall c | c in r ensures !Untyped(c) {
          var k :| 0 <= k < |r| && r[k] == c;
        }
      }
    }
  }

  /** Every criterion chunk of a list of sections carries a criterion type. */
  lemma {:induction false} SectionsChunksTyped(sections: seq<Section>, chunkSize: int, chunkOverlap: int)
    ensures forall c :: c in SectionsChunks(sections, chunkSize, chunkOverlap) ==> !Untyped(c)
    decreases |sections|
  {
    if sections != [] {
      SectionsChunksTyped(sections[..|sections| - 1], chunkSize, chunkOverlap);
      SectionChunksTyped(sections[|sections| - 1], chunkSize, chunkOverlap);
    }
  }

  /** The chunker gives every criterion chunk a criterion type, so the
      chunks `ingest_add` hands to `_store_document` are never refused by
      the NOT NULL constraint. */
  lemma ChunkerOutputTyped(sections: seq<Section>, pages: seq<string>, chunkSize: int, chunkOverlap: int)
    ensures var chunks := DocumentChunks(sections, pages, chunkSize, chunkOverlap);
      AllTyped(chunks, |chunks|)
  {
    var chunks := DocumentChunks(sections, pages, chunkSize, chunkOverlap);
    if |sections| > 0 {
      SectionsChunksTyped(sections, chunkSize, chunkOverlap);
    }
    forall k | 0 <= k < |chunks| ensures !Untyped(chunks[k]) {
      assert chunks[k] in chunks;
    }
  }

  /** `ingest_add` on the document `parse_document` returns for the file
      (its `filepath` is the resolved path the command looks up). A missing
      file or an already indexed path without `--force` stops the command
      with nothing changed; with `--force` the stored document is deleted
      first, in a transaction of its own, and a refused delete stops the
      command. Otherwise the document, with the given protocol id and title,
      is chunked, embedded and stored, and its new key is the result. */
  method IngestAdd(db: Store.Database, fileExists: bool, parsed: DocData,
                   protocolId: Option<string>, title: Option<string>, force: bool,
                   chunkSize: int, chunkOverlap: int, embed: string -> seq<real>,
                   pack: seq<real> -> seq<bv8>, now: int) returns (r: Result<int, string>)
    requires Store.Valid(db.tables)
    modifies db
    ensures Store.Valid(db.tables)
    ensures !fileExists ==> r.Err? && db.tables == old(db.tables)
    ensures Store.PathTaken(old(db.tables), parsed.filepath) && !force ==> r.Err? && db.tables == old(db.tables)
    ensures var existing := Store.DocumentByPath(old(db.tables), parsed.filepath);
      r.Ok? <==> fileExists && (existing.Some? ==> force && !Store.Blocked(old(db.tables), existing.value.id))
    ensures r.Err? ==> db.tables == old(db.tables)
    ensures r.Ok? ==>
      var doc := Overridden(parsed, protocolId, title);
      var chunks := DocumentChunks(doc.sections, doc.pages, chunkSize, chunkOverlap);
      var base := Cleared(old(db.tables), parsed.filepath);
      && AllTyped(chunks, |chunks|)
      && r.value == base.documentSeq + 1
      && db.tables == Stored(base, doc, chunks, EmbedAll(chunks, embed), pack, now)
  {
    if !fileExists {
      return Err("File not found");
    }
    var cleared := ClearPath(db, parsed.filepath, force);
    if cleared.Err? {
      return Err(cleared.error);
    }
    r := IndexDocument(db, parsed, protocolId, title, chunkSize, chunkOverlap, embed, pack, now);
  }

  /** The lookup of `ingest_add` and the delete `--force` asks for. An
      indexed path without `--force`, or a delete SQLite refuses, is an
      error with nothing changed; otherwise the path is free afterwards. */
  method ClearPath(db: Store.Database, path: string, force: bool) returns (r: Result<bool, string>)
    requires Store.Valid(db.tables)
    modifies db
    ensures Store.Valid(db.tables)
    ensures var existing := Store.DocumentByPath(old(db.tables), path);
      r.Ok? <==> (existing.Some? ==> force && !Store.Blocked(old(db.tables), existing.value.id))
    ensures r.Err? ==> db.tables == old(db.tables)
    ensures r.Ok? ==> db.tables == Cleared(old(db.tables), path) && !Store.PathTaken(db.tables, path)
  {
    ghost var t := db.tables;
    var existing := Store.DocumentByPath(db.tables, path);
    ClearedFreesPath(t, path);
    if existing.None? {
      assert Cleared(t, path) == t;
      return Ok(false);
    }
    if !force {
      return Err("Document already indexed");
    }
    assert Cleared(t, path) == Store.Deleted(t, existing.value.id);
    Store.InColumn(t.documents, Store.DocumentKey, existing.value);
    var deleted := db.DeleteDocument(existing.value.id);
    if deleted.Err? {
      return Err(deleted.error);
    }
    assert deleted.value;
    r := Ok(true);
  }

  /** The parse-chunk-embed-store half of `ingest_add` on a free path:
      the document, with the given protocol id and title, is stored with
      the chunker's chunks and their embeddings. */
  method IndexDocument(db: Store.Database, parsed: DocData, protocolId: Option<string>, title: Option<string>,
                       chunkSize: int, chunkOverlap: int, embed: string -> seq<real>,
                       pack: seq<real> -> seq<bv8>, now: int) returns (r: Result<int, string>)
    requires Store.Valid(db.tables) && !Store.PathTaken(db.tables, parsed.filepath)
    modifies db
    ensures Store.Valid(db.tables)
    ensures r.Ok?
    ensures var doc := Overridden(parsed, protocolId, title);
      var chunks := DocumentChunks(doc.sections, doc.pages, chunkSize, chunkOverlap);
      && AllTyped(chunks, |chunks|)
      && r.value == old(db.tables).documentSeq + 1
      && db.tables == Stored(old(db.tables), doc, chunks, EmbedAll(chunks, embed), pack, now)
  {
    var doc := Overridden(parsed, protocolId, title);
    var chunks := ChunkDocument(doc.sections, doc.pages, chunkSize, chunkOverlap);
    ChunkerOutputTyped(doc.sections, doc.pages, chunkSize, chunkOverlap);
    r := StoreDocument(db, doc, chunks, EmbedAll(chunks, embed), pack, now);
  }
}
