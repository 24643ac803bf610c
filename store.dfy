/** The SQLite store behind the `Database` class: the five tables of the
    schema held in memory in rowid order, the constraints the schema
    declares (AUTOINCREMENT keys, the UNIQUE columns, foreign keys and their
    ON DELETE actions), the lookups and listing the class offers, and the
    deletion of a document with its cascades. */
module Store {
  import opened Wrappers
  import opened Sorting
  import opened Sql

  // ---------------------------------------------------------------------
  // Rows. A nullable column is an Option.

  /** A row of `documents`. */
  datatype DocumentRow = DocumentRow(
    id: int, filename: string, filepath: string, fileHash: string, fileType: string,
    title: Option<string>, protocolId: Option<string>, version: Option<string>,
    sponsor: Option<string>, indication: Option<string>, phase: Option<string>,
    createdAt: int, updatedAt: int, metadata: Option<string>)

  /** A row of `sections`. */
  datatype SectionRow = SectionRow(
    id: int, documentId: int, sectionType: string, sectionNumber: Option<string>,
    title: Option<string>, parentSectionId: Option<int>, level: Option<int>,
    startPage: Option<int>, endPage: Option<int>, rawText: Option<string>, createdAt: int)

  /** A row of `chunks`. */
  datatype ChunkRow = ChunkRow(
    id: int, documentId: int, sectionId: Option<int>, chunkIndex: int, chunkText: string,
    chunkType: Option<string>, startChar: Option<int>, endChar: Option<int>,
    pageNumber: Option<int>, metadata: Option<string>, createdAt: int)

  /** A row of `eligibility_criteria`. */
  datatype CriterionRow = CriterionRow(
    id: int, documentId: int, criterionType: string, criterionNumber: Option<int>,
    criterionText: string, category: Option<string>, isRequired: Option<int>,
    chunkId: Option<int>, metadata: Option<string>)

  /** A row of `embeddings`: the packed vector of one chunk. */
  datatype EmbeddingRow = EmbeddingRow(id: int, chunkId: int, embedding: seq<bv8>)

  /** The whole database: each table in rowid order, and `sqlite_sequence`,
      the largest key each AUTOINCREMENT table has handed out. */
  datatype Tables = Tables(
    documents: seq<DocumentRow>, sections: seq<SectionRow>, chunks: seq<ChunkRow>,
    criteria: seq<CriterionRow>, embeddings: seq<EmbeddingRow>,
    documentSeq: int, sectionSeq: int, chunkSeq: int, criterionSeq: int, embeddingSeq: int)

  /** The freshly initialised schema. */
  const Empty := Tables([], [], [], [], [], 0, 0, 0, 0, 0)

  function DocumentKey(d: DocumentRow): int { d.id }
  function SectionKey(s: SectionRow): int { s.id }
  function ChunkKey(c: ChunkRow): int { c.id }
  function CriterionKey(c: CriterionRow): int { c.id }
  function EmbeddingKey(e: EmbeddingRow): int { e.id }
  function Filepath(d: DocumentRow): string { d.filepath }
  function EmbeddedChunk(e: EmbeddingRow): int { e.chunkId }

  // ---------------------------------------------------------------------
  // Table operations shared by every table

  /** One column of a table, in rowid order. */
  function Column<T, K>(s: seq<T>, key: T -> K): (r: seq<K>)
    ensures |r| == |s|
    ensures forall k :: 0 <= k < |s| ==> r[k] == key(s[k])
  {
    seq(|s|, k requires 0 <= k < |s| => key(s[k]))
  }

  lemma InColumn<T, K>(s: seq<T>, key: T -> K, x: T)
    requires x in s
    ensures key(x) in Column(s, key)
  {
    var k :| 0 <= k < |s| && s[k] == x;
    assert Column(s, key)[k] == key(x);
  }

  /** A row that carries a value of a column. */
  lemma ColumnWitness<T, K>(s: seq<T>, key: T -> K, v: K) returns (x: T)
    requires v in Column(s, key)
    ensures x in s && key(x) == v
  {
    var k :| 0 <= k < |Column(s, key)| && Column(s, key)[k] == v;
    x := s[k];
  }

  lemma ColumnAppend<T, K>(s: seq<T>, x: T, key: T -> K)
    ensures Column(s + [x], key) == Column(s, key) + [key(x)]
  {
  }

  /** Appending in two steps appends the concatenation. */
  lemma AppendAssoc<T>(a: seq<T>, b: seq<T>, c: seq<T>)
    ensures a + (b + c) == (a + b) + c
  {
  }

  /** Keys strictly increase along the table: rowid order without repeats. */
  ghost predicate Increasing<T>(s: seq<T>, key: T -> int) {
    forall i, j :: 0 <= i < j < |s| ==> key(s[i]) < key(s[j])
  }

  /** Every key lies between 1 and the table's sequence value. */
  ghost predicate Within<T>(s: seq<T>, key: T -> int, last: int) {
    forall x :: x in s ==> 0 < key(x) <= last
  }

  lemma {:induction false} WhereIncreasing<T>(s: seq<T>, keep: T -> bool, key: T -> int)
    requires Increasing(s, key)
    ensures Increasing(Where(s, keep), key)
    decreases |s|
  {
    if s != [] {
      var init, last := s[..|s| - 1], s[|s| - 1];
      WhereIncreasing(init, keep, key);
      WhereSpec(init, keep);
      var f := Where(init, keep);
      if keep(last) {
        var g := f + [last];
        forall i, j | 0 <= i < j < |g| ensures key(g[i]) < key(g[j]) {
          if j == |f| {
            assert g[i] == f[i] && f[i] in f;
            WhereMember(init, keep, f[i]);
            var k :| 0 <= k < |init| && init[k] == f[i];
            assert s[k] == f[i];
          } else {
            assert g[i] == f[i] && g[j] == f[j];
          }
        }
      }
    }
  }

  lemma WhereWithin<T>(s: seq<T>, keep: T -> bool, key: T -> int, last: int)
    requires Within(s, key, last)
    ensures Within(Where(s, keep), key, last)
  {
    WhereSpec(s, keep);
  }

  /** A table whose keys increase from 1 up to `last` has at most `last`
      rows: AUTOINCREMENT never hands out a key twice. */
  lemma {:induction false} KeysCounted<T>(s: seq<T>, key: T -> int, last: int)
    requires Increasing(s, key) && Within(s, key, last) && last >= 0
    ensures |s| <= last
    decreases |s|
  {
    if s != [] {
      var init, top := s[..|s| - 1], s[|s| - 1];
      assert top in s;
      forall x | x in init ensures 0 < key(x) <= key(top) - 1 {
        var i :| 0 <= i < |init| && init[i] == x;
        assert s[i] == x && s[i] in s;
      }
      forall i, j | 0 <= i < j < |init| ensures key(init[i]) < key(init[j]) {
        assert init[i] == s[i] && init[j] == s[j];
      }
      KeysCounted(init, key, key(top) - 1);
    }
  }

  /** Two rows of an increasing table with the same key are the same row. */
  lemma IncreasingUnique<T>(s: seq<T>, key: T -> int, x: T, y: T)
    requires Increasing(s, key) && x in s && y in s && key(x) == key(y)
    ensures x == y
  {
    var i :| 0 <= i < |s| && s[i] == x;
    var j :| 0 <= j < |s| && s[j] == y;
    if i < j {
      assert key(s[i]) < key(s[j]);
    } else if j < i {
      assert key(s[j]) < key(s[i]);
    }
  }

  /** Appending a row under the next AUTOINCREMENT key keeps the order. */
  lemma AppendKeyed<T>(s: seq<T>, x: T, key: T -> int, last: int)
    requires Increasing(s, key) && Within(s, key, last) && last >= 0 && key(x) == last + 1
    ensures Increasing(s + [x], key) && Within(s + [x], key, last + 1)
  {
    var g := s + [x];
    forall i, j | 0 <= i < j < |g| ensures key(g[i]) < key(g[j]) {
      assert g[i] == s[i] && s[i] in s;
      if j < |s| {
        assert g[j] == s[j];
      }
    }
  }

  /** The first row, in rowid order, that satisfies `p`; `|s|` when none does. */
  function FirstWhere<T>(s: seq<T>, p: T -> bool): (k: nat)
    ensures k <= |s|
    ensures k < |s| ==> p(s[k])
    ensures forall j :: 0 <= j < k ==> !p(s[j])
    decreases |s|
  {
    if s == [] || p(s[0]) then 0
    else
      var k := FirstWhere(s[1..], p);
      assert forall j :: 0 < j < k + 1 ==> s[j] == s[1..][j - 1];
      k + 1
  }

  /** `cursor.fetchone()` on a `SELECT ... WHERE p`: the first matching row,
      or `None` when no row matches. */
  function Fetch<T>(s: seq<T>, p: T -> bool): (r: Option<T>)
    ensures r.None? <==> forall x :: x in s ==> !p(x)
    ensures r.Some? ==> r.value in s && p(r.value)
  {
    var k := FirstWhere(s, p);
    if k < |s| then Some(s[k]) else None
  }

  /** A foreign key is NULL or names an existing key. */
  predicate Refers(fk: Option<int>, keys: seq<int>) {
    fk.Some? ==> fk.value in keys
  }

  // ---------------------------------------------------------------------
  // Schema constraints

  function DocumentIds(t: Tables): seq<int> { Column(t.documents, DocumentKey) }
  function SectionIds(t: Tables): seq<int> { Column(t.sections, SectionKey) }
  function ChunkIds(t: Tables): seq<int> { Column(t.chunks, ChunkKey) }

  /** `INTEGER PRIMARY KEY AUTOINCREMENT` on every table. */
  ghost predicate Keyed(t: Tables) {
    t.documentSeq >= 0 && t.sectionSeq >= 0 && t.chunkSeq >= 0 && t.criterionSeq >= 0 && t.embeddingSeq >= 0
    && Increasing(t.documents, DocumentKey) && Within(t.documents, DocumentKey, t.documentSeq)
    && Increasing(t.sections, SectionKey) && Within(t.sections, SectionKey, t.sectionSeq)
    && Increasing(t.chunks, ChunkKey) && Within(t.chunks, ChunkKey, t.chunkSeq)
    && Increasing(t.criteria, CriterionKey) && Within(t.criteria, CriterionKey, t.criterionSeq)
    && Increasing(t.embeddings, EmbeddingKey) && Within(t.embeddings, EmbeddingKey, t.embeddingSeq)
  }

  /** `documents.filepath UNIQUE` and `embeddings.chunk_id UNIQUE`. */
  ghost predicate UniqueColumns(t: Tables) {
    (forall d1, d2 {:trigger d1 in t.documents, d2 in t.documents} ::
       d1 in t.documents && d2 in t.documents && d1.filepath == d2.filepath ==> d1 == d2)
    && (forall e1, e2 {:trigger e1 in t.embeddings, e2 in t.embeddings} ::
          e1 in t.embeddings && e2 in t.embeddings && e1.chunkId == e2.chunkId ==> e1 == e2)
  }

  /** The foreign keys of a section row name existing rows. */
  ghost predicate SectionLinked(t: Tables, s: SectionRow) {
    s.documentId in DocumentIds(t) && Refers(s.parentSectionId, SectionIds(t))
  }

  /** The foreign keys of a chunk row name existing rows. */
  ghost predicate ChunkLinked(t: Tables, c: ChunkRow) {
    c.documentId in DocumentIds(t) && Refers(c.sectionId, SectionIds(t))
  }

  /** The foreign keys of a criteria row name existing rows. */
  ghost predicate CriterionLinked(t: Tables, c: CriterionRow) {
    c.documentId in DocumentIds(t) && Refers(c.chunkId, ChunkIds(t))
  }

  /** The chunk of an embedding row exists. */
  ghost predicate EmbeddingLinked(t: Tables, e: EmbeddingRow) {
    e.chunkId in ChunkIds(t)
  }

  /** Every foreign key names an existing row. A proof that needs this for
      a particular row mentions that row's `...Linked` fact, which is what
      the quantifiers below are triggered on. */
  ghost predicate Referenced(t: Tables) {
    (forall s {:trigger SectionLinked(t, s)} :: s in t.sections ==> SectionLinked(t, s))
    && (forall c {:trigger ChunkLinked(t, c)} :: c in t.chunks ==> ChunkLinked(t, c))
    && (forall c {:trigger CriterionLinked(t, c)} :: c in t.criteria ==> CriterionLinked(t, c))
    && (forall e {:trigger EmbeddingLinked(t, e)} :: e in t.embeddings ==> EmbeddingLinked(t, e))
  }

  /** In a database with its keys in place no table holds more rows than
      its AUTOINCREMENT counter has issued keys. */
  lemma KeyedCounts(t: Tables)
    ensures Keyed(t) ==>
      |t.documents| <= t.documentSeq && |t.sections| <= t.sectionSeq && |t.chunks| <= t.chunkSeq
      && |t.criteria| <= t.criterionSeq && |t.embeddings| <= t.embeddingSeq
  {
    if Keyed(t) {
      KeysCounted(t.documents, DocumentKey, t.documentSeq);
      KeysCounted(t.sections, SectionKey, t.sectionSeq);
      KeysCounted(t.chunks, ChunkKey, t.chunkSeq);
      KeysCounted(t.criteria, CriterionKey, t.criterionSeq);
      KeysCounted(t.embeddings, EmbeddingKey, t.embeddingSeq);
    }
  }

  /** A database that satisfies its schema. */
  ghost predicate Valid(t: Tables)
    ensures Valid(t) ==>
      |t.documents| <= t.documentSeq && |t.sections| <= t.sectionSeq && |t.chunks| <= t.chunkSeq
      && |t.criteria| <= t.criterionSeq && |t.embeddings| <= t.embeddingSeq
  {
    KeyedCounts(t);
    Keyed(t) && UniqueColumns(t) && Referenced(t)
  }

  lemma EmptyValid()
    ensures Valid(Empty)
  {
  }

  // ---------------------------------------------------------------------
  // Inserts: the row each INSERT appends and when SQLite refuses it

  /** An insert into `documents` violates `filepath UNIQUE`. */
  predicate PathTaken(t: Tables, path: string) {
    path in Column(t.documents, Filepath)
  }

  lemma DocumentAppended(t: Tables, d: DocumentRow)
    requires Valid(t) && d.id == t.documentSeq + 1 && !PathTaken(t, d.filepath)
    ensures Valid(t.(documents := t.documents + [d], documentSeq := d.id))
  {
    var r := t.(documents := t.documents + [d], documentSeq := d.id);
    AppendKeyed(t.documents, d, DocumentKey, t.documentSeq);
    assert Keyed(r);
    forall x | x in t.documents ensures x.filepath != d.filepath {
      InColumn(t.documents, Filepath, x);
    }
    assert UniqueColumns(r);
    DocumentReferenced(t, d);
  }

  /** A new document leaves every existing reference in place. */
  lemma DocumentReferenced(t: Tables, d: DocumentRow)
    requires Referenced(t)
    ensures Referenced(t.(documents := t.documents + [d], documentSeq := d.id))
  {
    var r := t.(documents := t.documents + [d], documentSeq := d.id);
    ColumnAppend(t.documents, d, DocumentKey);
    assert DocumentIds(r) == DocumentIds(t) + [d.id];
    assert SectionIds(r) == SectionIds(t) && ChunkIds(r) == ChunkIds(t);
    forall x | x in r.sections ensures SectionLinked(r, x) {
      assert SectionLinked(t, x);
    }
    forall x | x in r.chunks ensures ChunkLinked(r, x) {
      assert ChunkLinked(t, x);
    }
    forall x | x in r.criteria ensures CriterionLinked(r, x) {
      assert CriterionLinked(t, x);
    }
    forall x | x in r.embeddings ensures EmbeddingLinked(r, x) {
      assert EmbeddingLinked(t, x);
    }
  }

  /** `INSERT INTO documents`: the row under the next key, with `created_at`
      and `updated_at` defaulting to the current time `now`. */
  function AddDocument(t: Tables, row: DocumentRow, now: int): (r: Tables)
    requires Valid(t) && !PathTaken(t, row.filepath)
    ensures Valid(r)
    ensures r.documentSeq == t.documentSeq + 1 && r.documentSeq in DocumentIds(r)
  {
    var d := row.(id := t.documentSeq + 1, createdAt := now, updatedAt := now);
    DocumentAppended(t, d);
    ColumnAppend(t.documents, d, DocumentKey);
    t.(documents := t.documents + [d], documentSeq := d.id)
  }

  /** The foreign keys of a new section name existing rows. */
  predicate SectionAccepted(t: Tables, row: SectionRow) {
    row.documentId in DocumentIds(t) && Refers(row.parentSectionId, SectionIds(t))
  }

  lemma SectionAppended(t: Tables, s: SectionRow)
    requires Valid(t) && s.id == t.sectionSeq + 1 && SectionAccepted(t, s)
    ensures Valid(t.(sections := t.sections + [s], sectionSeq := s.id))
  {
    var r := t.(sections := t.sections + [s], sectionSeq := s.id);
    AppendKeyed(t.sections, s, SectionKey, t.sectionSeq);
    assert Keyed(r);
    assert UniqueColumns(r);
    ColumnAppend(t.sections, s, SectionKey);
    assert SectionIds(r) == SectionIds(t) + [s.id];
    assert DocumentIds(r) == DocumentIds(t) && ChunkIds(r) == ChunkIds(t);
    forall x | x in r.sections ensures SectionLinked(r, x) {
      if x != s {
        assert SectionLinked(t, x);
      }
    }
    forall x | x in r.chunks ensures ChunkLinked(r, x) {
      assert ChunkLinked(t, x);
    }
    forall x | x in r.criteria ensures CriterionLinked(r, x) {
      assert CriterionLinked(t, x);
    }
    forall x | x in r.embeddings ensures EmbeddingLinked(r, x) {
      assert EmbeddingLinked(t, x);
    }
  }

  /** `INSERT INTO sections`. */
  function AddSection(t: Tables, row: SectionRow, now: int): (r: Tables)
    requires Valid(t) && SectionAccepted(t, row)
    ensures Valid(r)
    ensures r.sectionSeq == t.sectionSeq + 1 && r.sectionSeq in SectionIds(r)
  {
    var s := row.(id := t.sectionSeq + 1, createdAt := now);
    SectionAppended(t, s);
    ColumnAppend(t.sections, s, SectionKey);
    t.(sections := t.sections + [s], sectionSeq := s.id)
  }

  /** The foreign keys of a new chunk name existing rows. */
  predicate ChunkAccepted(t: Tables, row: ChunkRow) {
    row.documentId in DocumentIds(t) && Refers(row.sectionId, SectionIds(t))
  }

  lemma ChunkAppended(t: Tables, c: ChunkRow)
    requires Valid(t) && c.id == t.chunkSeq + 1 && ChunkAccepted(t, c)
    ensures Valid(t.(chunks := t.chunks + [c], chunkSeq := c.id))
  {
    var r := t.(chunks := t.chunks + [c], chunkSeq := c.id);
    AppendKeyed(t.chunks, c, ChunkKey, t.chunkSeq);
    assert Keyed(r);
    assert UniqueColumns(r);
    ChunkReferenced(t, c);
  }

  /** A new chunk whose own keys resolve leaves every reference in place. */
  lemma ChunkReferenced(t: Tables, c: ChunkRow)
    requires Referenced(t) && ChunkAccepted(t, c)
    ensures Referenced(t.(chunks := t.chunks + [c], chunkSeq := c.id))
  {
    var r := t.(chunks := t.chunks + [c], chunkSeq := c.id);
    ColumnAppend(t.chunks, c, ChunkKey);
    assert ChunkIds(r) == ChunkIds(t) + [c.id];
    assert DocumentIds(r) == DocumentIds(t) && SectionIds(r) == SectionIds(t);
    forall x | x in r.sections ensures SectionLinked(r, x) {
      assert SectionLinked(t, x);
    }
    forall x | x in r.chunks ensures ChunkLinked(r, x) {
      if x != c {
        assert ChunkLinked(t, x);
      }
    }
    forall x | x in r.criteria ensures CriterionLinked(r, x) {
      assert CriterionLinked(t, x);
    }
    forall x | x in r.embeddings ensures EmbeddingLinked(r, x) {
      assert EmbeddingLinked(t, x);
    }
  }

  /** `INSERT INTO chunks`. */
  function AddChunk(t: Tables, row: ChunkRow, now: int): (r: Tables)
    requires Valid(t) && ChunkAccepted(t, row)
    ensures Valid(r)
    ensures r.chunkSeq == t.chunkSeq + 1 && r.chunkSeq in ChunkIds(r)
  {
    var c := row.(id := t.chunkSeq + 1, createdAt := now);
    ChunkAppended(t, c);
    ColumnAppend(t.chunks, c, ChunkKey);
    t.(chunks := t.chunks + [c], chunkSeq := c.id)
  }

  /** The chunk exists and has no embedding yet (`chunk_id UNIQUE`). */
  predicate EmbeddingAccepted(t: Tables, chunkId: int) {
    chunkId in ChunkIds(t) && chunkId !in Column(t.embeddings, EmbeddedChunk)
  }

  lemma EmbeddingAppended(t: Tables, e: EmbeddingRow)
    requires Valid(t) && e.id == t.embeddingSeq + 1 && EmbeddingAccepted(t, e.chunkId)
    ensures Valid(t.(embeddings := t.embeddings + [e], embeddingSeq := e.id))
  {
    var r := t.(embeddings := t.embeddings + [e], embeddingSeq := e.id);
    AppendKeyed(t.embeddings, e, EmbeddingKey, t.embeddingSeq);
    assert Keyed(r);
    forall x | x in t.embeddings ensures x.chunkId != e.chunkId {
      InColumn(t.embeddings, EmbeddedChunk, x);
    }
    assert UniqueColumns(r);
    assert DocumentIds(r) == DocumentIds(t) && SectionIds(r) == SectionIds(t) && ChunkIds(r) == ChunkIds(t);
    forall x | x in r.sections ensures SectionLinked(r, x) {
      assert SectionLinked(t, x);
    }
    forall x | x in r.chunks ensures ChunkLinked(r, x) {
      assert ChunkLinked(t, x);
    }
    forall x | x in r.criteria ensures CriterionLinked(r, x) {
      assert CriterionLinked(t, x);
    }
    forall x | x in r.embeddings ensures EmbeddingLinked(r, x) {
      if x != e {
        assert EmbeddingLinked(t, x);
      }
    }
  }

  /** `INSERT INTO embeddings`. */
  function AddEmbedding(t: Tables, chunkId: int, blob: seq<bv8>): (r: Tables)
    requires Valid(t) && EmbeddingAccepted(t, chunkId)
    ensures Valid(r)
    ensures r.embeddingSeq == t.embeddingSeq + 1
  {
    var e := EmbeddingRow(t.embeddingSeq + 1, chunkId, blob);
    EmbeddingAppended(t, e);
    t.(embeddings := t.embeddings + [e], embeddingSeq := e.id)
  }

  /** The foreign keys of a new criterion name existing rows. */
  predicate CriterionAccepted(t: Tables, row: CriterionRow) {
    row.documentId in DocumentIds(t) && Refers(row.chunkId, ChunkIds(t))
  }

  lemma CriterionAppended(t: Tables, c: CriterionRow)
    requires Valid(t) && c.id == t.criterionSeq + 1 && CriterionAccepted(t, c)
    ensures Valid(t.(criteria := t.criteria + [c], criterionSeq := c.id))
  {
    var r := t.(criteria := t.criteria + [c], criterionSeq := c.id);
    AppendKeyed(t.criteria, c, CriterionKey, t.criterionSeq);
    assert Keyed(r);
    assert UniqueColumns(r);
    assert DocumentIds(r) == DocumentIds(t) && SectionIds(r) == SectionIds(t) && ChunkIds(r) == ChunkIds(t);
    forall x | x in r.sections ensures SectionLinked(r, x) {
      assert SectionLinked(t, x);
    }
    forall x | x in r.chunks ensures ChunkLinked(r, x) {
      assert ChunkLinked(t, x);
    }
    forall x | x in r.criteria ensures CriterionLinked(r, x) {
      if x != c {
        assert CriterionLinked(t, x);
      }
    }
    forall x | x in r.embeddings ensures EmbeddingLinked(r, x) {
      assert EmbeddingLinked(t, x);
    }
  }

  /** `INSERT INTO eligibility_criteria`. */
  function AddCriterion(t: Tables, row: CriterionRow): (r: Tables)
    requires Valid(t) && CriterionAccepted(t, row)
    ensures Valid(r)
    ensures r.criterionSeq == t.criterionSeq + 1
  {
    var c := row.(id := t.criterionSeq + 1);
    CriterionAppended(t, c);
    t.(criteria := t.criteria + [c], criterionSeq := c.id)
  }

  // ---------------------------------------------------------------------
  // Lookups

  function HasPath(path: string): DocumentRow -> bool { (d: DocumentRow) => d.filepath == path }
  function HasId(id: int): DocumentRow -> bool { (d: DocumentRow) => d.id == id }
  function HasProtocol(protocolId: string): DocumentRow -> bool { (d: DocumentRow) => d.protocolId == Some(protocolId) }

  /** `get_document_by_path`. */
  function DocumentByPath(t: Tables, path: string): (r: Option<DocumentRow>)
    ensures r.Some? ==> r.value in t.documents && r.value.filepath == path
    ensures r.None? <==> !PathTaken(t, path)
  {
    FetchPath(t, path);
    Fetch(t.documents, HasPath(path))
  }

  lemma FetchPath(t: Tables, path: string)
    ensures Fetch(t.documents, HasPath(path)).None? <==> !PathTaken(t, path)
  {
    if PathTaken(t, path) {
      var d := ColumnWitness(t.documents, Filepath, path);
      assert HasPath(path)(d);
    } else {
      forall d | d in t.documents ensures !HasPath(path)(d) {
        InColumn(t.documents, Filepath, d);
      }
    }
  }

  /** With `filepath UNIQUE`, the document found by path is the only one
      stored under that path. */
  lemma PathLookupUnique(t: Tables, path: string, d: DocumentRow)
    requires Valid(t) && d in t.documents && d.filepath == path
    ensures DocumentByPath(t, path) == Some(d)
  {
    InColumn(t.documents, Filepath, d);
  }

  /** `get_document_by_id`. */
  function DocumentById(t: Tables, id: int): (r: Option<DocumentRow>)
    ensures r.Some? ==> r.value in t.documents && r.value.id == id
    ensures r.None? <==> id !in DocumentIds(t)
  {
    FetchId(t, id);
    Fetch(t.documents, HasId(id))
  }

  lemma FetchId(t: Tables, id: int)
    ensures Fetch(t.documents, HasId(id)).None? <==> id !in DocumentIds(t)
  {
    if id in DocumentIds(t) {
      var d := ColumnWitness(t.documents, DocumentKey, id);
      assert HasId(id)(d);
    } else {
      forall d | d in t.documents ensures !HasId(id)(d) {
        InColumn(t.documents, DocumentKey, d);
      }
    }
  }

  /** `get_document_by_protocol_id`: `protocol_id` is not unique, and the row
      returned is the first in rowid order. */
  function DocumentByProtocolId(t: Tables, protocolId: string): (r: Option<DocumentRow>)
    ensures r.Some? ==> r.value in t.documents && r.value.protocolId == Some(protocolId)
    ensures r.None? <==> forall d :: d in t.documents ==> d.protocolId != Some(protocolId)
  {
    Fetch(t.documents, HasProtocol(protocolId))
  }

  /** Among the documents of one protocol, the lookup returns the oldest. */
  lemma {:induction false} ProtocolLookupOldest(t: Tables, protocolId: string, d: DocumentRow)
    requires Valid(t) && d in t.documents && d.protocolId == Some(protocolId)
    ensures DocumentByProtocolId(t, protocolId).Some?
    ensures DocumentByProtocolId(t, protocolId).value.id <= d.id
  {
    var k := FirstWhere(t.documents, HasProtocol(protocolId));
    var j :| 0 <= j < |t.documents| && t.documents[j] == d;
    assert HasProtocol(protocolId)(t.documents[j]);
    assert k <= j;
    if k < j {
      assert DocumentKey(t.documents[k]) < DocumentKey(t.documents[j]);
    }
  }

  // ---------------------------------------------------------------------
  // Listing

  /** One entry of `list_documents`: the document's columns with
      `chunk_count` and `criteria_count`. */
  datatype Listing = Listing(document: DocumentRow, chunkCount: nat, criteriaCount: nat)

  function ChunkIn(docId: int): ChunkRow -> bool { (c: ChunkRow) => c.documentId == docId }
  function CriterionIn(docId: int): CriterionRow -> bool { (c: CriterionRow) => c.documentId == docId }
  function SectionIn(docId: int): SectionRow -> bool { (s: SectionRow) => s.documentId == docId }

  /** The counting subqueries of `list_documents` for one document. */
  function ListingOf(t: Tables, d: DocumentRow): Listing {
    Listing(d, |Where(t.chunks, ChunkIn(d.id))|, |Where(t.criteria, CriterionIn(d.id))|)
  }

  function Listings(t: Tables): (r: seq<Listing>)
    ensures |r| == |t.documents|
    ensures forall k :: 0 <= k < |r| ==> r[k] == ListingOf(t, t.documents[k])
  {
    seq(|t.documents|, k requires 0 <= k < |t.documents| => ListingOf(t, t.documents[k]))
  }

  /** `ORDER BY created_at DESC`. */
  function Created(l: Listing): real { l.document.createdAt as real }

  /** `list_documents`: one entry per document, newest first, documents
      created at the same time left in rowid order. */
  function ListDocuments(t: Tables): (r: seq<Listing>)
    ensures |r| == |t.documents|
    ensures SortedDesc(r, Created)
    ensures multiset(r) == multiset(Listings(t))
  {
    SortDesc(Listings(t), Created)
  }

  /** Every stored document is listed once, with exactly its own chunks and
      criteria counted; nothing else is listed; equal times keep rowid order. */
  lemma ListDocumentsSpec(t: Tables)
    ensures forall l :: l in ListDocuments(t) ==>
      l.document in t.documents
      && (forall c :: c in Where(t.chunks, ChunkIn(l.document.id)) <==> c in t.chunks && c.documentId == l.document.id)
      && l.chunkCount == |Where(t.chunks, ChunkIn(l.document.id))|
      && (forall c :: c in Where(t.criteria, CriterionIn(l.document.id)) <==> c in t.criteria && c.documentId == l.document.id)
      && l.criteriaCount == |Where(t.criteria, CriterionIn(l.document.id))|
    ensures forall d :: d in t.documents ==> ListingOf(t, d) in ListDocuments(t)
    ensures forall v :: WithKey(ListDocuments(t), Created, v) == WithKey(Listings(t), Created, v)
  {
    var r := ListDocuments(t);
    forall l | l in r
      ensures l.document in t.documents
      ensures forall c :: c in Where(t.chunks, ChunkIn(l.document.id)) <==> c in t.chunks && c.documentId == l.document.id
      ensures l.chunkCount == |Where(t.chunks, ChunkIn(l.document.id))|
      ensures forall c :: c in Where(t.criteria, CriterionIn(l.document.id)) <==> c in t.criteria && c.documentId == l.document.id
      ensures l.criteriaCount == |Where(t.criteria, CriterionIn(l.document.id))|
    {
      assert l in multiset(Listings(t));
      var k :| 0 <= k < |Listings(t)| && Listings(t)[k] == l;
      WhereSpec(t.chunks, ChunkIn(l.document.id));
      WhereSpec(t.criteria, CriterionIn(l.document.id));
    }
    forall d | d in t.documents ensures ListingOf(t, d) in r {
      var k :| 0 <= k < |t.documents| && t.documents[k] == d;
      assert Listings(t)[k] == ListingOf(t, d);
      assert ListingOf(t, d) in multiset(r);
    }
    forall v ensures WithKey(r, Created, v) == WithKey(Listings(t), Created, v) {
      SortDescStable(Listings(t), Created, v);
    }
  }

  // ---------------------------------------------------------------------
  // Deleting a document

  function DocumentOther(docId: int): DocumentRow -> bool { (d: DocumentRow) => d.id != docId }
  function SectionOutside(docId: int): SectionRow -> bool { (s: SectionRow) => s.documentId != docId }
  function ChunkOutside(docId: int): ChunkRow -> bool { (c: ChunkRow) => c.documentId != docId }
  function CriterionOutside(docId: int): CriterionRow -> bool { (c: CriterionRow) => c.documentId != docId }
  function EmbeddingKept(goneChunks: seq<int>): EmbeddingRow -> bool { (e: EmbeddingRow) => e.chunkId !in goneChunks }

  /** The keys of the sections the cascade removes. */
  function RemovedSections(t: Tables, docId: int): seq<int> {
    Column(Where(t.sections, SectionIn(docId)), SectionKey)
  }

  /** The keys of the chunks the cascade removes. */
  function RemovedChunks(t: Tables, docId: int): seq<int> {
    Column(Where(t.chunks, ChunkIn(docId)), ChunkKey)
  }

  /** `ON DELETE SET NULL` on `chunks.section_id`. */
  function Unlink(c: ChunkRow, goneSections: seq<int>): ChunkRow {
    if c.sectionId.Some? && c.sectionId.value in goneSections then c.(sectionId := None) else c
  }

  function Detach(cs: seq<ChunkRow>, goneSections: seq<int>): (r: seq<ChunkRow>)
    ensures |r| == |cs|
    ensures forall k :: 0 <= k < |cs| ==> r[k] == Unlink(cs[k], goneSections)
  {
    seq(|cs|, k requires 0 <= k < |cs| => Unlink(cs[k], goneSections))
  }

  /** The cascade would leave a reference without `ON DELETE` action
      (`sections.parent_section_id`, `eligibility_criteria.chunk_id`)
      pointing at a removed row, so SQLite refuses the delete. */
  predicate Blocked(t: Tables, docId: int)
    ensures (forall s :: s in t.sections ==> s.documentId != docId) && (forall c :: c in t.chunks ==> c.documentId != docId)
      ==> !Blocked(t, docId)
  {
    WhereNone(t.sections, SectionIn(docId));
    WhereNone(t.chunks, ChunkIn(docId));
    (exists s :: s in t.sections && s.documentId != docId && s.parentSectionId.Some?
                 && s.parentSectionId.value in RemovedSections(t, docId))
    || (exists c :: c in t.criteria && c.documentId != docId && c.chunkId.Some?
                    && c.chunkId.value in RemovedChunks(t, docId))
  }

  /** The tables after `DELETE FROM documents WHERE id = docId` and its
      cascades: the document's sections, chunks and criteria go with it
      (`ON DELETE CASCADE`), the embeddings of its chunks go with the
      chunks, and other chunks that pointed at a removed section keep their
      row with `section_id` NULL. */
  function Deleted(t: Tables, docId: int): (r: Tables)
    ensures r.documentSeq == t.documentSeq && r.sectionSeq == t.sectionSeq && r.chunkSeq == t.chunkSeq
      && r.criterionSeq == t.criterionSeq && r.embeddingSeq == t.embeddingSeq
    ensures |r.documents| <= |t.documents| && |r.sections| <= |t.sections| && |r.chunks| <= |t.chunks|
      && |r.criteria| <= |t.criteria| && |r.embeddings| <= |t.embeddings|
    ensures forall d :: d in r.documents ==> d.id != docId
  {
    WhereSpec(t.documents, DocumentOther(docId));
    var goneSections := RemovedSections(t, docId);
    var goneChunks := RemovedChunks(t, docId);
    t.(documents := Where(t.documents, DocumentOther(docId)),
       sections := Where(t.sections, SectionOutside(docId)),
       chunks := Detach(Where(t.chunks, ChunkOutside(docId)), goneSections),
       criteria := Where(t.criteria, CriterionOutside(docId)),
       embeddings := Where(t.embeddings, EmbeddingKept(goneChunks)))
  }

  lemma InRemovedSections(t: Tables, docId: int, s: SectionRow)
    requires s in t.sections && s.documentId == docId
    ensures s.id in RemovedSections(t, docId)
  {
    WhereSpec(t.sections, SectionIn(docId));
    InColumn(Where(t.sections, SectionIn(docId)), SectionKey, s);
  }

  lemma InRemovedChunks(t: Tables, docId: int, c: ChunkRow)
    requires c in t.chunks && c.documentId == docId
    ensures c.id in RemovedChunks(t, docId)
  {
    WhereSpec(t.chunks, ChunkIn(docId));
    InColumn(Where(t.chunks, ChunkIn(docId)), ChunkKey, c);
  }

  /** A removed key belongs to a row of the deleted document. */
  lemma RemovedChunkOwner(t: Tables, docId: int, v: int) returns (c: ChunkRow)
    requires v in RemovedChunks(t, docId)
    ensures c in t.chunks && c.documentId == docId && c.id == v
  {
    c := ColumnWitness(Where(t.chunks, ChunkIn(docId)), ChunkKey, v);
    WhereSpec(t.chunks, ChunkIn(docId));
  }

  lemma RemovedSectionOwner(t: Tables, docId: int, v: int) returns (s: SectionRow)
    requires v in RemovedSections(t, docId)
    ensures s in t.sections && s.documentId == docId && s.id == v
  {
    s := ColumnWitness(Where(t.sections, SectionIn(docId)), SectionKey, v);
    WhereSpec(t.sections, SectionIn(docId));
  }

  /** The surviving chunks: exactly the other documents' chunks, in order,
      with dangling section links set to NULL. */
  lemma DetachedChunks(t: Tables, docId: int)
    ensures forall c :: c in Deleted(t, docId).chunks <==>
      exists c0 :: c0 in t.chunks && c0.documentId != docId && c == Unlink(c0, RemovedSections(t, docId))
  {
    var kept := Where(t.chunks, ChunkOutside(docId));
    var gone := RemovedSections(t, docId);
    WhereSpec(t.chunks, ChunkOutside(docId));
    forall c | c in Deleted(t, docId).chunks
      ensures exists c0 :: c0 in t.chunks && c0.documentId != docId && c == Unlink(c0, gone)
    {
      var k :| 0 <= k < |kept| && Detach(kept, gone)[k] == c;
      assert kept[k] in kept;
    }
    forall c0 | c0 in t.chunks && c0.documentId != docId
      ensures Unlink(c0, gone) in Deleted(t, docId).chunks
    {
      assert c0 in kept;
      var k :| 0 <= k < |kept| && kept[k] == c0;
      assert Detach(kept, gone)[k] == Unlink(c0, gone);
    }
  }

  /** What the cascade removes and what it keeps. */
  lemma DeleteCascades(t: Tables, docId: int)
    ensures forall d :: d in Deleted(t, docId).documents <==> d in t.documents && d.id != docId
    ensures forall s :: s in Deleted(t, docId).sections <==> s in t.sections && s.documentId != docId
    ensures forall c :: c in Deleted(t, docId).criteria <==> c in t.criteria && c.documentId != docId
    ensures forall e :: e in Deleted(t, docId).embeddings <==> e in t.embeddings && e.chunkId !in RemovedChunks(t, docId)
    ensures forall c :: c in Deleted(t, docId).chunks ==>
      c.documentId != docId && (c.sectionId.Some? ==> c.sectionId.value !in RemovedSections(t, docId))
  {
    WhereSpec(t.documents, DocumentOther(docId));
    WhereSpec(t.sections, SectionOutside(docId));
    WhereSpec(t.criteria, CriterionOutside(docId));
    WhereSpec(t.embeddings, EmbeddingKept(RemovedChunks(t, docId)));
    DetachedChunks(t, docId);
  }

  lemma DeleteKeyed(t: Tables, docId: int)
    requires Keyed(t)
    ensures Keyed(Deleted(t, docId))
  {
    var r := Deleted(t, docId);
    var kept := Where(t.chunks, ChunkOutside(docId));
    WhereIncreasing(t.documents, DocumentOther(docId), DocumentKey);
    WhereWithin(t.documents, DocumentOther(docId), DocumentKey, t.documentSeq);
    WhereIncreasing(t.sections, SectionOutside(docId), SectionKey);
    WhereWithin(t.sections, SectionOutside(docId), SectionKey, t.sectionSeq);
    WhereIncreasing(t.chunks, ChunkOutside(docId), ChunkKey);
    WhereWithin(t.chunks, ChunkOutside(docId), ChunkKey, t.chunkSeq);
    assert Increasing(r.chunks, ChunkKey) by {
      forall i, j | 0 <= i < j < |r.chunks| ensures ChunkKey(r.chunks[i]) < ChunkKey(r.chunks[j]) {
        assert r.chunks[i].id == kept[i].id && r.chunks[j].id == kept[j].id;
      }
    }
    assert Within(r.chunks, ChunkKey, t.chunkSeq) by {
      forall c | c in r.chunks ensures 0 < ChunkKey(c) <= t.chunkSeq {
        var k :| 0 <= k < |r.chunks| && r.chunks[k] == c;
        assert c.id == kept[k].id && kept[k] in kept;
      }
    }
    WhereIncreasing(t.criteria, CriterionOutside(docId), CriterionKey);
    WhereWithin(t.criteria, CriterionOutside(docId), CriterionKey, t.criterionSeq);
    WhereIncreasing(t.embeddings, EmbeddingKept(RemovedChunks(t, docId)), EmbeddingKey);
    WhereWithin(t.embeddings, EmbeddingKept(RemovedChunks(t, docId)), EmbeddingKey, t.embeddingSeq);
  }

  /** A document other than the deleted one keeps its key in the table. */
  lemma KeptDocument(t: Tables, docId: int, id: int)
    requires id in DocumentIds(t) && id != docId
    ensures id in DocumentIds(Deleted(t, docId))
  {
    var d := ColumnWitness(t.documents, DocumentKey, id);
    WhereSpec(t.documents, DocumentOther(docId));
    InColumn(Deleted(t, docId).documents, DocumentKey, d);
  }

  /** A section key that the cascade does not remove is still present. */
  lemma KeptSection(t: Tables, docId: int, id: int)
    requires id in SectionIds(t) && id !in RemovedSections(t, docId)
    ensures id in SectionIds(Deleted(t, docId))
  {
    var s := ColumnWitness(t.sections, SectionKey, id);
    if s.documentId == docId {
      InRemovedSections(t, docId, s);
    }
    WhereSpec(t.sections, SectionOutside(docId));
    InColumn(Deleted(t, docId).sections, SectionKey, s);
  }

  /** A chunk key that the cascade does not remove is still present. */
  lemma KeptChunk(t: Tables, docId: int, id: int)
    requires id in ChunkIds(t) && id !in RemovedChunks(t, docId)
    ensures id in ChunkIds(Deleted(t, docId))
  {
    var c := ColumnWitness(t.chunks, ChunkKey, id);
    if c.documentId == docId {
      InRemovedChunks(t, docId, c);
    }
    DetachedChunks(t, docId);
    var u := Unlink(c, RemovedSections(t, docId));
    assert u in Deleted(t, docId).chunks;
    InColumn(Deleted(t, docId).chunks, ChunkKey, u);
  }

  lemma DeleteSectionRefs(t: Tables, docId: int)
    requires Referenced(t) && !Blocked(t, docId)
    ensures forall s :: s in Deleted(t, docId).sections ==>
      s.documentId in DocumentIds(Deleted(t, docId)) && Refers(s.parentSectionId, SectionIds(Deleted(t, docId)))
  {
    WhereSpec(t.sections, SectionOutside(docId));
    forall s | s in Deleted(t, docId).sections
      ensures s.documentId in DocumentIds(Deleted(t, docId))
      ensures Refers(s.parentSectionId, SectionIds(Deleted(t, docId)))
    {
      assert SectionLinked(t, s);
      KeptDocument(t, docId, s.documentId);
      if s.parentSectionId.Some? {
        KeptSection(t, docId, s.parentSectionId.value);
      }
    }
  }

  lemma DeleteChunkRefs(t: Tables, docId: int)
    requires Referenced(t)
    ensures forall c :: c in Deleted(t, docId).chunks ==>
      c.documentId in DocumentIds(Deleted(t, docId)) && Refers(c.sectionId, SectionIds(Deleted(t, docId)))
  {
    var gone := RemovedSections(t, docId);
    DetachedChunks(t, docId);
    forall c | c in Deleted(t, docId).chunks
      ensures c.documentId in DocumentIds(Deleted(t, docId))
      ensures Refers(c.sectionId, SectionIds(Deleted(t, docId)))
    {
      var c0 :| c0 in t.chunks && c0.documentId != docId && c == Unlink(c0, gone);
      assert ChunkLinked(t, c0);
      KeptDocument(t, docId, c0.documentId);
      if c.sectionId.Some? {
        KeptSection(t, docId, c.sectionId.value);
      }
    }
  }

  lemma DeleteCriterionRefs(t: Tables, docId: int)
    requires Referenced(t) && !Blocked(t, docId)
    ensures forall c :: c in Deleted(t, docId).criteria ==>
      c.documentId in DocumentIds(Deleted(t, docId)) && Refers(c.chunkId, ChunkIds(Deleted(t, docId)))
  {
    WhereSpec(t.criteria, CriterionOutside(docId));
    forall c | c in Deleted(t, docId).criteria
      ensures c.documentId in DocumentIds(Deleted(t, docId))
      ensures Refers(c.chunkId, ChunkIds(Deleted(t, docId)))
    {
      assert CriterionLinked(t, c);
      KeptDocument(t, docId, c.documentId);
      if c.chunkId.Some? {
        KeptChunk(t, docId, c.chunkId.value);
      }
    }
  }

  lemma DeleteEmbeddingRefs(t: Tables, docId: int)
    requires Referenced(t)
    ensures forall e :: e in Deleted(t, docId).embeddings ==> e.chunkId in ChunkIds(Deleted(t, docId))
  {
    WhereSpec(t.embeddings, EmbeddingKept(RemovedChunks(t, docId)));
    forall e | e in Deleted(t, docId).embeddings ensures e.chunkId in ChunkIds(Deleted(t, docId)) {
      assert EmbeddingLinked(t, e);
      KeptChunk(t, docId, e.chunkId);
    }
  }

  /** A delete SQLite accepts leaves a database that satisfies its schema. */
  lemma DeletePreservesValid(t: Tables, docId: int)
    requires Valid(t) && !Blocked(t, docId)
    ensures Valid(Deleted(t, docId))
  {
    var r := Deleted(t, docId);
    DeleteKeyed(t, docId);
    DeleteCascades(t, docId);
    DeleteSectionRefs(t, docId);
    DeleteChunkRefs(t, docId);
    DeleteCriterionRefs(t, docId);
    DeleteEmbeddingRefs(t, docId);
    assert Referenced(r);
  }

  /** A key that no row carries is not in the column. */
  lemma NotInColumn<T, K>(s: seq<T>, key: T -> K, v: K)
    requires forall x :: x in s ==> key(x) != v
    ensures v !in Column(s, key)
  {
    forall k | 0 <= k < |s| ensures Column(s, key)[k] != v {
      assert s[k] in s;
    }
  }

  /** A surviving section whose parent the cascade removed dangles. */
  lemma DanglingParent(t: Tables, docId: int, s: SectionRow)
    requires Increasing(t.sections, SectionKey)
    requires s in t.sections && s.documentId != docId && s.parentSectionId.Some?
    requires s.parentSectionId.value in RemovedSections(t, docId)
    ensures s in Deleted(t, docId).sections && !Refers(s.parentSectionId, SectionIds(Deleted(t, docId)))
  {
    var r := Deleted(t, docId);
    var v := s.parentSectionId.value;
    var gone := RemovedSectionOwner(t, docId, v);
    WhereSpec(t.sections, SectionOutside(docId));
    forall s2 | s2 in r.sections ensures s2.id != v {
      if s2.id == v {
        IncreasingUnique(t.sections, SectionKey, s2, gone);
      }
    }
    NotInColumn(r.sections, SectionKey, v);
  }

  /** A surviving criterion whose chunk the cascade removed dangles. */
  lemma DanglingChunk(t: Tables, docId: int, c: CriterionRow)
    requires Increasing(t.chunks, ChunkKey)
    requires c in t.criteria && c.documentId != docId && c.chunkId.Some?
    requires c.chunkId.value in RemovedChunks(t, docId)
    ensures c in Deleted(t, docId).criteria && !Refers(c.chunkId, ChunkIds(Deleted(t, docId)))
  {
    var r := Deleted(t, docId);
    var v := c.chunkId.value;
    var gone := RemovedChunkOwner(t, docId, v);
    WhereSpec(t.criteria, CriterionOutside(docId));
    DetachedChunks(t, docId);
    forall c2 | c2 in r.chunks ensures c2.id != v {
      var c0 :| c0 in t.chunks && c0.documentId != docId && c2 == Unlink(c0, RemovedSections(t, docId));
      if c0.id == v {
        IncreasingUnique(t.chunks, ChunkKey, c0, gone);
      }
    }
    NotInColumn(r.chunks, ChunkKey, v);
  }

  /** Conversely, a refused delete is one whose cascade would have left a
      dangling reference. */
  lemma {:induction false} BlockedBreaksReference(t: Tables, docId: int)
    requires Valid(t) && Blocked(t, docId)
    ensures !Referenced(Deleted(t, docId))
  {
    if s :| s in t.sections && s.documentId != docId && s.parentSectionId.Some?
            && s.parentSectionId.value in RemovedSections(t, docId) {
      DanglingParent(t, docId, s);
      assert !SectionLinked(Deleted(t, docId), s);
    } else {
      var c :| c in t.criteria && c.documentId != docId && c.chunkId.Some?
               && c.chunkId.value in RemovedChunks(t, docId);
      DanglingChunk(t, docId, c);
      assert !CriterionLinked(Deleted(t, docId), c);
    }
  }

  // ---------------------------------------------------------------------
  // The database handle

  /** The `Database` class with its connection: every statement runs in
      `cursor()`, which commits on success and rolls back on an exception,
      so a failing statement leaves `tables` as it was. */
  class Database {
    var tables: Tables

    /** `initialize` on a new database file. */
    constructor ()
      ensures tables == Empty && Valid(tables)
    {
      tables := Empty;
    }

    method InsertDocument(row: DocumentRow, now: int) returns (r: Result<int, string>)
      requires Valid(tables)
      modifies this
      ensures Valid(tables)
      ensures r.Err? <==> PathTaken(old(tables), row.filepath)
      ensures r.Err? ==> tables == old(tables)
      ensures r.Ok? ==> r.value == old(tables).documentSeq + 1 && tables == AddDocument(old(tables), row, now)
    {
      if PathTaken(tables, row.filepath) {
        return Err("UNIQUE constraint failed: documents.filepath");
      }
      tables := AddDocument(tables, row, now);
      r := Ok(tables.documentSeq);
    }

    method InsertSection(row: SectionRow, now: int) returns (r: Result<int, string>)
      requires Valid(tables)
      modifies this
      ensures Valid(tables)
      ensures r.Ok? <==> SectionAccepted(old(tables), row)
      ensures r.Err? ==> tables == old(tables)
      ensures r.Ok? ==> r.value == old(tables).sectionSeq + 1 && tables == AddSection(old(tables), row, now)
    {
      if !SectionAccepted(tables, row) {
        return Err("FOREIGN KEY constraint failed");
      }
      tables := AddSection(tables, row, now);
      r := Ok(tables.sectionSeq);
    }

    method InsertChunk(row: ChunkRow, now: int) returns (r: Result<int, string>)
      requires Valid(tables)
      modifies this
      ensures Valid(tables)
      ensures r.Ok? <==> ChunkAccepted(old(tables), row)
      ensures r.Err? ==> tables == old(tables)
      ensures r.Ok? ==> r.value == old(tables).chunkSeq + 1 && tables == AddChunk(old(tables), row, now)
    {
      if !ChunkAccepted(tables, row) {
        return Err("FOREIGN KEY constraint failed");
      }
      tables := AddChunk(tables, row, now);
      r := Ok(tables.chunkSeq);
    }

    method InsertEmbedding(chunkId: int, blob: seq<bv8>) returns (r: Result<int, string>)
      requires Valid(tables)
      modifies this
      ensures Valid(tables)
      ensures r.Ok? <==> EmbeddingAccepted(old(tables), chunkId)
      ensures r.Err? ==> tables == old(tables)
      ensures r.Ok? ==> r.value == old(tables).embeddingSeq + 1 && tables == AddEmbedding(old(tables), chunkId, blob)
    {
      if chunkId !in ChunkIds(tables) {
        return Err("FOREIGN KEY constraint failed");
      }
      if chunkId in Column(tables.embeddings, EmbeddedChunk) {
        return Err("UNIQUE constraint failed: embeddings.chunk_id");
      }
      tables := AddEmbedding(tables, chunkId, blob);
      r := Ok(tables.embeddingSeq);
    }

    method InsertCriterion(row: CriterionRow) returns (r: Result<int, string>)
      requires Valid(tables)
      modifies this
      ensures Valid(tables)
      ensures r.Ok? <==> CriterionAccepted(old(tables), row)
      ensures r.Err? ==> tables == old(tables)
      ensures r.Ok? ==> r.value == old(tables).criterionSeq + 1 && tables == AddCriterion(old(tables), row)
    {
      if !CriterionAccepted(tables, row) {
        return Err("FOREIGN KEY constraint failed");
      }
      tables := AddCriterion(tables, row);
      r := Ok(tables.criterionSeq);
    }

    /** `delete_document`: `Ok(true)` iff a document row was removed,
        `Ok(false)` when there is no such document, and an error, with
        nothing changed, when the cascade is refused. */
    method DeleteDocument(docId: int) returns (r: Result<bool, string>)
      requires Valid(tables)
      modifies this
      ensures Valid(tables)
      ensures r == Ok(false) <==> docId !in DocumentIds(old(tables))
      ensures r.Err? <==> docId in DocumentIds(old(tables)) && Blocked(old(tables), docId)
      ensures r != Ok(true) ==> tables == old(tables)
      ensures r == Ok(true) ==> tables == Deleted(old(tables), docId)
    {
      if docId !in DocumentIds(tables) {
        return Ok(false);
      }
      if Blocked(tables, docId) {
        return Err("FOREIGN KEY constraint failed");
      }
      DeletePreservesValid(tables, docId);
      tables := Deleted(tables, docId);
      r := Ok(true);
    }
  }
}
