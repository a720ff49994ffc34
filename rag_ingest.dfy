/** `processKnowledgeBaseDocument` and `processClientDocument` of src/lib/rag-service.ts.
    The two functions are the same code over two pairs of tables (knowledgeBase with
    kBEmbedding, clientDocument with clientEmbedding): look the document up, give up when it
    is missing or its content is empty, delete the document's old embedding rows, split the
    content into chunks and insert one row per chunk. */
module RagIngest {
  import opened JsBuiltins
  import opened RagChunking
  import opened RagEmbedding

  /** A document row as the processing reads it: its name and its possibly null content. */
  datatype StoredDocument = StoredDocument(name: string, content: Option<string>)

  /** A row of an embedding table. The source stores the vector as JSON text; reading it
      back gives the same numbers, so the model keeps the vector itself. */
  datatype EmbeddingRecord = EmbeddingRecord(documentId: string, chunkIndex: int, chunkText: string, embedding: Vector)

  /** The filter of `deleteMany({ where: { documentId } })`, negated: the rows it keeps. */
  function NotOf(documentId: string): EmbeddingRecord -> bool
  {
    (r: EmbeddingRecord) => r.documentId != documentId
  }

  /** The rows that belong to `documentId`. */
  function RowsOf(documentId: string): EmbeddingRecord -> bool
  {
    (r: EmbeddingRecord) => r.documentId == documentId
  }

  /** One embedding table, updated in place by the store calls the processing makes. */
  class EmbeddingTable {
    var records: seq<EmbeddingRecord>

    constructor ()
      ensures records == []
    {
      records := [];
    }

    /** `deleteMany({ where: { documentId } })`. */
    method DeleteMany(documentId: string)
      modifies this
      ensures records == Filter(old(records), NotOf(documentId))
    {
      records := Filter(records, NotOf(documentId));
    }

    /** `create({ data })`. */
    method Create(record: EmbeddingRecord)
      modifies this
      ensures records == old(records) + [record]
    {
      records := records + [record];
    }
  }

  /** The rows inserted for the chunks of a document: chunk `i` with index `i`, its text
      and its embedding. */
  function ChunkRecords(documentId: string, chunks: seq<string>): (rs: seq<EmbeddingRecord>)
    ensures |rs| == |chunks|
    ensures forall r :: r in rs ==> r.documentId == documentId
    ensures forall i :: 0 <= i < |rs| ==> rs[i].chunkIndex == i && rs[i].chunkText == chunks[i]
  {
    seq(|chunks|, i requires 0 <= i < |chunks| => EmbeddingRecord(documentId, i, chunks[i], Embedding(chunks[i])))
  }

  lemma ChunkRecordsAppend(documentId: string, chunks: seq<string>, i: nat)
    requires i < |chunks|
    ensures ChunkRecords(documentId, chunks[..i + 1])
         == ChunkRecords(documentId, chunks[..i]) + [EmbeddingRecord(documentId, i, chunks[i], Embedding(chunks[i]))]
  {
  }

  /** The content the processing works on, or None when it returns early
      (`if (!doc || !doc.content) return;`). */
  function ContentToProcess(documents: map<string, StoredDocument>, documentId: string): (c: Option<string>)
    ensures c.Some? ==> c.value != []
    ensures c.None? <==> documentId !in documents || documents[documentId].content in {None, Some([])}
  {
    if documentId !in documents then None
    else match documents[documentId].content
      case None => None
      case Some(content) => if content == [] then None else Some(content)
  }

  /** The table after processing `documentId`. */
  function Reprocessed(records: seq<EmbeddingRecord>, documents: map<string, StoredDocument>, documentId: string): seq<EmbeddingRecord>
  {
    match ContentToProcess(documents, documentId)
    case None => records
    case Some(content) => Filter(records, NotOf(documentId)) + ChunkRecords(documentId, Chunks(content))
  }

  /** The processing as the source writes it. */
  method ProcessDocument(documents: map<string, StoredDocument>, table: EmbeddingTable, documentId: string)
    modifies table
    ensures table.records == Reprocessed(old(table.records), documents, documentId)
  {
    if documentId !in documents {
      return;
    }
    var doc := documents[documentId];
    if doc.content.None? || doc.content.value == [] {
      return;
    }
    assert ContentToProcess(documents, documentId) == doc.content;
    table.DeleteMany(documentId);
    var chunks := SplitIntoChunks(doc.content.value);
    ghost var kept := table.records;
    for i := 0 to |chunks|
      invariant table.records == kept + ChunkRecords(documentId, chunks[..i])
    {
      var embedding := GenerateEmbedding(chunks[i]);
      ChunkRecordsAppend(documentId, chunks, i);
      table.Create(EmbeddingRecord(documentId, i, chunks[i], embedding));
    }
    assert chunks[..|chunks|] == chunks;
  }

  // ---------------------------------------------------------------------------
  // Properties of the processing
  // ---------------------------------------------------------------------------

  lemma NoneOfChunkRecords(documentId: string, chunks: seq<string>)
    ensures Filter(ChunkRecords(documentId, chunks), NotOf(documentId)) == []
  {
    FilterDropsAll(ChunkRecords(documentId, chunks), NotOf(documentId));
  }

  lemma AllOfChunkRecords(documentId: string, chunks: seq<string>)
    ensures Filter(ChunkRecords(documentId, chunks), RowsOf(documentId)) == ChunkRecords(documentId, chunks)
  {
    FilterKeepsAll(ChunkRecords(documentId, chunks), RowsOf(documentId));
  }

  lemma NoneOfOthers(records: seq<EmbeddingRecord>, documentId: string)
    ensures Filter(Filter(records, NotOf(documentId)), RowsOf(documentId)) == []
  {
    FilterDropsAll(Filter(records, NotOf(documentId)), RowsOf(documentId));
  }

  /** A missing document, or one with null or empty content, leaves the table as it was. */
  lemma NothingToProcess(records: seq<EmbeddingRecord>, documents: map<string, StoredDocument>, documentId: string)
    requires documentId !in documents || documents[documentId].content in {None, Some([])}
    ensures Reprocessed(records, documents, documentId) == records
  {
  }

  /** The rows of every other document are the same, in the same order, before and after. */
  lemma OthersUntouched(records: seq<EmbeddingRecord>, documents: map<string, StoredDocument>, documentId: string, other: string)
    requires other != documentId
    ensures Filter(Reprocessed(records, documents, documentId), RowsOf(other)) == Filter(records, RowsOf(other))
  {
    match ContentToProcess(documents, documentId)
    case None =>
    case Some(content) =>
      var rs := ChunkRecords(documentId, Chunks(content));
      FilterConcat(Filter(records, NotOf(documentId)), rs, RowsOf(other));
      FilterDropsAll(rs, RowsOf(other));
      FilterSubsumed(records, documentId, other);
  }

  /** Keeping the rows not of `documentId` and then those of `other` keeps the rows of
      `other`. */
  lemma {:induction false} FilterSubsumed(records: seq<EmbeddingRecord>, documentId: string, other: string)
    requires other != documentId
    ensures Filter(Filter(records, NotOf(documentId)), RowsOf(other)) == Filter(records, RowsOf(other))
    decreases |records|
  {
    if records != [] {
      FilterSubsumed(records[1..], documentId, other);
      assert Filter(records, NotOf(documentId))
          == (if NotOf(documentId)(records[0]) then [records[0]] else []) + Filter(records[1..], NotOf(documentId));
      FilterConcat(if NotOf(documentId)(records[0]) then [records[0]] else [], Filter(records[1..], NotOf(documentId)), RowsOf(other));
      assert Filter([records[0]], RowsOf(other)) == (if RowsOf(other)(records[0]) then [records[0]] else []) + Filter([], RowsOf(other));
    }
  }

  /** After processing a document with content, its rows are exactly one per chunk of the
      content, with chunk indices 0, 1, 2, ... in order. */
  lemma RowsOfProcessed(records: seq<EmbeddingRecord>, documents: map<string, StoredDocument>, documentId: string)
    requires ContentToProcess(documents, documentId).Some?
    ensures var chunks := Chunks(ContentToProcess(documents, documentId).value);
      var rows := Filter(Reprocessed(records, documents, documentId), RowsOf(documentId));
      && |rows| == |chunks|
      && forall i :: 0 <= i < |rows| ==> rows[i].chunkIndex == i && rows[i].chunkText == chunks[i]
  {
    var content := ContentToProcess(documents, documentId).value;
    var rs := ChunkRecords(documentId, Chunks(content));
    FilterConcat(Filter(records, NotOf(documentId)), rs, RowsOf(documentId));
    NoneOfOthers(records, documentId);
    AllOfChunkRecords(documentId, Chunks(content));
  }

  /** Processing the same document twice, with its content unchanged, gives the same table
      as processing it once. */
  lemma ProcessTwice(records: seq<EmbeddingRecord>, documents: map<string, StoredDocument>, documentId: string)
    ensures Reprocessed(Reprocessed(records, documents, documentId), documents, documentId)
         == Reprocessed(records, documents, documentId)
  {
    match ContentToProcess(documents, documentId)
    case None =>
    case Some(content) =>
      var rs := ChunkRecords(documentId, Chunks(content));
      FilterConcat(Filter(records, NotOf(documentId)), rs, NotOf(documentId));
      FilterIdempotent(records, NotOf(documentId));
      NoneOfChunkRecords(documentId, Chunks(content));
      assert Filter(records, NotOf(documentId)) + [] == Filter(records, NotOf(documentId));
  }

  /** Every inserted chunk text is non-empty and equals its own trim. */
  lemma InsertedChunksTrimmed(records: seq<EmbeddingRecord>, documents: map<string, StoredDocument>, documentId: string)
    ensures forall r :: r in Reprocessed(records, documents, documentId) && r !in records ==>
              r.chunkText != [] && Trim(r.chunkText) == r.chunkText
  {
    match ContentToProcess(documents, documentId)
    case None =>
    case Some(content) =>
      var kept := Filter(records, NotOf(documentId));
      var rs := ChunkRecords(documentId, Chunks(content));
      ChunkRecordsTrimmed(documentId, content);
      forall r | r in kept + rs && r !in records
        ensures r.chunkText != [] && Trim(r.chunkText) == r.chunkText
      {
        assert r !in kept;
      }
  }

  lemma ChunkRecordsTrimmed(documentId: string, content: string)
    ensures forall r :: r in ChunkRecords(documentId, Chunks(content)) ==>
              r.chunkText != [] && Trim(r.chunkText) == r.chunkText
  {
    var chunks := Chunks(content);
    var rs := ChunkRecords(documentId, chunks);
    ChunksTrimmed(content);
    forall r | r in rs ensures r.chunkText != [] && Trim(r.chunkText) == r.chunkText {
      var i :| 0 <= i < |rs| && rs[i] == r;
    }
  }

  predicate AllTrimmed(chunks: seq<string>)
  {
    forall i :: 0 <= i < |chunks| ==> chunks[i] != [] && Trim(chunks[i]) == chunks[i]
  }

  lemma ChunksTrimmed(content: string)
    ensures AllTrimmed(Chunks(content))
  {
    ChunksAreTrimmedSlices(content);
  }
}
