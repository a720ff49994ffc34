/** `searchKnowledgeBase`, `searchClientDocuments`, `searchFullContext` and
    `formatSourcesForDisplay` of src/lib/rag-service.ts.

    The cosine similarity is floating-point code and is not modelled: a search takes the
    similarity as a parameter `sim` from (query vector, stored vector) to a real score. */
module RagSearch {
  import opened JsBuiltins
  import opened RagEmbedding
  import opened RagIngest

  /** `MAX_SOURCES`. */
  const MaxSources: int := 5

  datatype SourceType = KnowledgeBase | ClientDocument

  /** `RAGSource`. */
  datatype RagSource = RagSource(
    sourceType: SourceType,
    documentId: string,
    documentName: string,
    chunkIndex: int,
    chunkText: string,
    score: real)

  /** `RAGContext`. */
  datatype RagContext = RagContext(sources: seq<RagSource>, context: string)

  /** A kBEmbedding row together with the name of its knowledgeBase document. */
  datatype KbRow = KbRow(record: EmbeddingRecord, documentName: string)

  /** A clientEmbedding row together with the name and the client id of its clientDocument. */
  datatype ClientRow = ClientRow(record: EmbeddingRecord, documentName: string, clientId: string)

  type Similarity = (Vector, Vector) -> real

  // ---------------------------------------------------------------------------
  // Ranking: `sort((a, b) => b.score - a.score)`
  // ---------------------------------------------------------------------------

  predicate SortedByScore(s: seq<RagSource>)
  {
    forall i, j :: 0 <= i < j < |s| ==> s[i].score >= s[j].score
  }

  /** Places `x` after every element whose score is at least its own. */
  function InsertByScore(x: RagSource, s: seq<RagSource>): (r: seq<RagSource>)
    ensures |r| == |s| + 1
    decreases |s|
  {
    if s == [] then [x]
    else if s[0].score < x.score then [x] + s
    else [s[0]] + InsertByScore(x, s[1..])
  }

  /** The insertion adds `x` and loses nothing. */
  lemma {:induction false} InsertPermutes(x: RagSource, s: seq<RagSource>)
    ensures multiset(InsertByScore(x, s)) == multiset(s) + multiset{x}
    decreases |s|
  {
    if s != [] && s[0].score >= x.score {
      InsertPermutes(x, s[1..]);
      assert s == [s[0]] + s[1..];
    }
  }

  lemma {:induction false} InsertSorted(x: RagSource, s: seq<RagSource>)
    requires SortedByScore(s)
    ensures SortedByScore(InsertByScore(x, s))
    decreases |s|
  {
    var r := InsertByScore(x, s);
    if s == [] {
    } else if s[0].score < x.score {
      forall i, j | 0 <= i < j < |r| ensures r[i].score >= r[j].score {
        assert r[j] == s[j - 1];
        if i > 0 {
          assert r[i] == s[i - 1];
        }
      }
    } else {
      var rest := InsertByScore(x, s[1..]);
      InsertSorted(x, s[1..]);
      InsertPermutes(x, s[1..]);
      assert r == [s[0]] + rest;
      forall j | 0 <= j < |rest| ensures s[0].score >= rest[j].score {
        assert rest[j] in multiset(rest);
        if rest[j] != x {
          var k :| 0 <= k < |s[1..]| && s[1..][k] == rest[j];
          assert s[k + 1] == rest[j];
        }
      }
      forall i, j | 0 <= i < j < |r| ensures r[i].score >= r[j].score {
        assert r[j] == rest[j - 1];
        if i > 0 {
          assert r[i] == rest[i - 1];
        }
      }
    }
  }

  /** What the stable sort on descending score returns: the elements of `s` reordered so
      that scores never increase, elements with equal scores keeping their input order. */
  function SortByScore(s: seq<RagSource>): (r: seq<RagSource>)
    ensures |r| == |s|
    decreases |s|
  {
    if s == [] then [] else InsertByScore(s[|s| - 1], SortByScore(s[..|s| - 1]))
  }

  /** The sort is a permutation of its input. */
  lemma {:induction false} SortPermutes(s: seq<RagSource>)
    ensures multiset(SortByScore(s)) == multiset(s)
    decreases |s|
  {
    if s != [] {
      SortPermutes(s[..|s| - 1]);
      InsertPermutes(s[|s| - 1], SortByScore(s[..|s| - 1]));
      assert s == s[..|s| - 1] + [s[|s| - 1]];
    }
  }

  /** The sort's result is in descending order of score. */
  lemma {:induction false} SortIsSorted(s: seq<RagSource>)
    ensures SortedByScore(SortByScore(s))
    decreases |s|
  {
    if s != [] {
      SortIsSorted(s[..|s| - 1]);
      InsertSorted(s[|s| - 1], SortByScore(s[..|s| - 1]));
    }
  }

  function HasScore(score: real): RagSource -> bool
  {
    (x: RagSource) => x.score == score
  }

  lemma FilterOne(x: RagSource, score: real)
    ensures Filter([x], HasScore(score)) == if x.score == score then [x] else []
  {
    assert [x][1..] == [];
  }

  /** Inserting `x` adds it after every element of its own score. */
  lemma {:induction false} InsertKeepsTies(x: RagSource, s: seq<RagSource>, score: real)
    requires SortedByScore(s)
    ensures Filter(InsertByScore(x, s), HasScore(score)) == Filter(s, HasScore(score)) + Filter([x], HasScore(score))
    decreases |s|
  {
    FilterOne(x, score);
    if s == [] {
      assert InsertByScore(x, s) == [x];
    } else if s[0].score < x.score {
      InsertAhead(x, s, score);
    } else {
      assert SortedByScore(s[1..]);
      InsertKeepsTies(x, s[1..], score);
      InsertBehind(x, s, HasScore(score));
    }
  }

  /** `x` goes first when it outscores the sorted `s`, so nothing in `s` ties with it. */
  lemma InsertAhead(x: RagSource, s: seq<RagSource>, score: real)
    requires SortedByScore(s) && s != [] && s[0].score < x.score
    ensures Filter(InsertByScore(x, s), HasScore(score)) == Filter(s, HasScore(score)) + Filter([x], HasScore(score))
  {
    FilterOne(x, score);
    assert InsertByScore(x, s) == [x] + s;
    FilterConcat([x], s, HasScore(score));
    if x.score == score {
      forall y | y in s ensures !HasScore(score)(y) {
        var k :| 0 <= k < |s| && s[k] == y;
        assert s[0].score >= s[k].score;
      }
      FilterDropsAll(s, HasScore(score));
    }
  }

  /** `x` goes after the head of `s` when it does not outscore it, so the head keeps its
      place before `x` in any filter. */
  lemma InsertBehind(x: RagSource, s: seq<RagSource>, keep: RagSource -> bool)
    requires s != [] && s[0].score >= x.score
    requires Filter(InsertByScore(x, s[1..]), keep) == Filter(s[1..], keep) + Filter([x], keep)
    ensures Filter(InsertByScore(x, s), keep) == Filter(s, keep) + Filter([x], keep)
  {
    var rest := InsertByScore(x, s[1..]);
    assert InsertByScore(x, s) == [s[0]] + rest;
    FilterCons(rest, s, Filter([x], keep), keep);
  }

  /** The sort is stable: for every score, the elements with that score appear in the same
      order as in the input. Together with the ensures of SortByScore this pins the result
      down to the one stable descending sort of `s`. */
  lemma {:induction false} SortKeepsTies(s: seq<RagSource>, score: real)
    ensures Filter(SortByScore(s), HasScore(score)) == Filter(s, HasScore(score))
    decreases |s|
  {
    if s != [] {
      var init := s[..|s| - 1];
      var last := s[|s| - 1];
      var keep := HasScore(score);
      SortKeepsTies(init, score);
      assert Filter(SortByScore(s), keep) == Filter(SortByScore(init), keep) + Filter([last], keep) by {
        SortIsSorted(init);
        InsertKeepsTies(last, SortByScore(init), score);
      }
      assert Filter(s, keep) == Filter(init, keep) + Filter([last], keep) by {
        assert s == init + [last];
        FilterConcat(init, [last], keep);
      }
    }
  }

  /** Sorting input that is already in descending order changes nothing. */
  lemma {:induction false} SortSorted(s: seq<RagSource>)
    requires SortedByScore(s)
    ensures SortByScore(s) == s
    decreases |s|
  {
    if s != [] {
      var init := s[..|s| - 1];
      SortSorted(init);
      InsertLast(s[|s| - 1], init);
      assert init + [s[|s| - 1]] == s;
    }
  }

  lemma {:induction false} InsertLast(x: RagSource, s: seq<RagSource>)
    requires forall y :: y in s ==> y.score >= x.score
    ensures InsertByScore(x, s) == s + [x]
    decreases |s|
  {
    if s != [] {
      assert s[0] in s;
      InsertLast(x, s[1..]);
      assert s == [s[0]] + s[1..];
    }
  }

  // ---------------------------------------------------------------------------
  // searchKnowledgeBase and searchClientDocuments
  // ---------------------------------------------------------------------------

  function KbSource(query: string, row: KbRow, sim: Similarity): RagSource
  {
    RagSource(KnowledgeBase, row.record.documentId, row.documentName, row.record.chunkIndex,
              row.record.chunkText, sim(Embedding(query), row.record.embedding))
  }

  function ClientSource(query: string, row: ClientRow, sim: Similarity): RagSource
  {
    RagSource(ClientDocument, row.record.documentId, row.documentName, row.record.chunkIndex,
              row.record.chunkText, sim(Embedding(query), row.record.embedding))
  }

  function KbSources(query: string, rows: seq<KbRow>, sim: Similarity): (s: seq<RagSource>)
    ensures |s| == |rows|
  {
    seq(|rows|, i requires 0 <= i < |rows| => KbSource(query, rows[i], sim))
  }

  function ClientSources(query: string, rows: seq<ClientRow>, sim: Similarity): (s: seq<RagSource>)
    ensures |s| == |rows|
  {
    seq(|rows|, i requires 0 <= i < |rows| => ClientSource(query, rows[i], sim))
  }

  function OfClient(clientId: string): ClientRow -> bool
  {
    (row: ClientRow) => row.clientId == clientId
  }

  /** `clientEmbedding.findMany({ where: { document: { clientId } } })`. */
  function RowsOfClient(rows: seq<ClientRow>, clientId: string): seq<ClientRow>
  {
    Filter(rows, OfClient(clientId))
  }

  /** What `searchKnowledgeBase(query, limit)` returns on the table `rows`. */
  function KbSearch(query: string, rows: seq<KbRow>, limit: int, sim: Similarity): seq<RagSource>
  {
    SliceTo(SortByScore(KbSources(query, rows, sim)), limit)
  }

  /** What `searchClientDocuments(query, clientId, limit)` returns on the table `rows`. */
  function ClientSearch(query: string, rows: seq<ClientRow>, clientId: string, limit: int, sim: Similarity): seq<RagSource>
  {
    SliceTo(SortByScore(ClientSources(query, RowsOfClient(rows, clientId), sim)), limit)
  }

  /** Sorting and slicing keeps the list in descending order of score, holds min(n, limit)
      of the `n` candidates for a non-negative limit, and invents nothing. */
  lemma Ranked(found: seq<RagSource>, limit: int)
    ensures var r := SliceTo(SortByScore(found), limit);
      && SortedByScore(r)
      && (limit >= 0 ==> |r| == Min(|found|, limit))
      && forall x :: x in r ==> x in found
  {
    var sorted := SortByScore(found);
    var r := SliceTo(sorted, limit);
    SortIsSorted(found);
    SortPermutes(found);
    forall x | x in r ensures x in found {
      assert x in multiset(sorted);
    }
  }

  /** The loop of `searchKnowledgeBase`, then the sort and the slice. */
  method SearchKnowledgeBase(query: string, rows: seq<KbRow>, limit: int, sim: Similarity)
    returns (results: seq<RagSource>)
    ensures results == KbSearch(query, rows, limit, sim)
  {
    var queryEmbedding := GenerateEmbedding(query);
    var found: seq<RagSource> := [];
    for i := 0 to |rows|
      invariant found == KbSources(query, rows[..i], sim)
    {
      var emb := rows[i];
      var score := sim(queryEmbedding, emb.record.embedding);
      found := found + [RagSource(KnowledgeBase, emb.record.documentId, emb.documentName,
                                  emb.record.chunkIndex, emb.record.chunkText, score)];
    }
    assert rows[..|rows|] == rows;
    results := SliceTo(SortByScore(found), limit);
  }

  /** A knowledge-base search is sorted by descending score, holds min(#rows, limit)
      sources, and every one of them is the tagged source of a stored row. */
  lemma KbSearchFacts(query: string, rows: seq<KbRow>, limit: int, sim: Similarity)
    ensures SortedByScore(KbSearch(query, rows, limit, sim))
    ensures limit >= 0 ==> |KbSearch(query, rows, limit, sim)| == Min(|rows|, limit)
    ensures forall s :: s in KbSearch(query, rows, limit, sim) ==>
              s.sourceType == KnowledgeBase && exists row :: row in rows && s == KbSource(query, row, sim)
  {
    var found := KbSources(query, rows, sim);
    Ranked(found, limit);
    forall s | s in KbSearch(query, rows, limit, sim)
      ensures s.sourceType == KnowledgeBase && exists row :: row in rows && s == KbSource(query, row, sim)
    {
      var k :| 0 <= k < |found| && found[k] == s;
      assert rows[k] in rows;
    }
  }

  /** The loop of `searchClientDocuments` over the rows of the client, then the sort and the
      slice. */
  method SearchClientDocuments(query: string, rows: seq<ClientRow>, clientId: string, limit: int, sim: Similarity)
    returns (results: seq<RagSource>)
    ensures results == ClientSearch(query, rows, clientId, limit, sim)
  {
    var queryEmbedding := GenerateEmbedding(query);
    var embeddings := RowsOfClient(rows, clientId);
    var found: seq<RagSource> := [];
    for i := 0 to |embeddings|
      invariant found == ClientSources(query, embeddings[..i], sim)
    {
      var emb := embeddings[i];
      var score := sim(queryEmbedding, emb.record.embedding);
      found := found + [RagSource(ClientDocument, emb.record.documentId, emb.documentName,
                                  emb.record.chunkIndex, emb.record.chunkText, score)];
    }
    assert embeddings[..|embeddings|] == embeddings;
    results := SliceTo(SortByScore(found), limit);
  }

  /** A client search is sorted by descending score and holds min(#rows of the client,
      limit) sources; client isolation: every one of them is the tagged source of a row
      whose document belongs to that client. */
  lemma ClientIsolation(query: string, rows: seq<ClientRow>, clientId: string, limit: int, sim: Similarity)
    ensures SortedByScore(ClientSearch(query, rows, clientId, limit, sim))
    ensures limit >= 0 ==> |ClientSearch(query, rows, clientId, limit, sim)| == Min(|RowsOfClient(rows, clientId)|, limit)
    ensures forall s :: s in ClientSearch(query, rows, clientId, limit, sim) ==>
              s.sourceType == ClientDocument &&
              exists row :: row in rows && row.clientId == clientId && s == ClientSource(query, row, sim)
  {
    var own := RowsOfClient(rows, clientId);
    var found := ClientSources(query, own, sim);
    Ranked(found, limit);
    forall s | s in ClientSearch(query, rows, clientId, limit, sim)
      ensures s.sourceType == ClientDocument &&
              exists row :: row in rows && row.clientId == clientId && s == ClientSource(query, row, sim)
    {
      var k :| 0 <= k < |found| && found[k] == s;
      assert own[k] in own;
    }
  }

  // ---------------------------------------------------------------------------
  // searchFullContext
  // ---------------------------------------------------------------------------

  /** `if (clientId)`: an absent or empty client id searches no client documents. */
  predicate HasClient(clientId: Option<string>)
  {
    clientId.Some? && clientId.value != []
  }

  /** The sources `searchFullContext` gathers before sorting: three from the knowledge base,
      then two of the client's when there is a client. */
  function Gathered(query: string, clientId: Option<string>, kbRows: seq<KbRow>, clientRows: seq<ClientRow>, sim: Similarity): seq<RagSource>
  {
    KbSearch(query, kbRows, 3, sim)
    + (if HasClient(clientId) then ClientSearch(query, clientRows, clientId.value, 2, sim) else [])
  }

  function TypeLabel(t: SourceType): string
  {
    match t
    case KnowledgeBase => "[Base de Conhecimento]"
    case ClientDocument => "[Documento do Cliente]"
  }

  /** One part of the context: `${typeLabel} ${documentName}:\n${chunkText}`. */
  function Block(s: RagSource): string
  {
    TypeLabel(s.sourceType) + " " + s.documentName + ":\n" + s.chunkText
  }

  function Blocks(sources: seq<RagSource>): (bs: seq<string>)
    ensures |bs| == |sources|
  {
    seq(|sources|, i requires 0 <= i < |sources| => Block(sources[i]))
  }

  const Separator: string := "\n\n---\n\n"

  /** What `searchFullContext(query, clientId)` returns. */
  function FullContext(query: string, clientId: Option<string>, kbRows: seq<KbRow>, clientRows: seq<ClientRow>, sim: Similarity): RagContext
  {
    var sources := SliceTo(SortByScore(Gathered(query, clientId, kbRows, clientRows, sim)), MaxSources);
    RagContext(sources, Join(Blocks(sources), Separator))
  }

  lemma BlocksAppend(sources: seq<RagSource>, i: nat)
    requires i < |sources|
    ensures Blocks(sources[..i + 1]) == Blocks(sources[..i]) + [Block(sources[i])]
  {
  }

  /** The loop of `searchFullContext` that renders one part per source and joins them. */
  method RenderContext(top: seq<RagSource>) returns (context: string)
    ensures context == Join(Blocks(top), Separator)
  {
    var contextParts: seq<string> := [];
    for i := 0 to |top|
      invariant contextParts == Blocks(top[..i])
    {
      var source := top[i];
      var typeLabel := if source.sourceType == KnowledgeBase then "[Base de Conhecimento]" else "[Documento do Cliente]";
      assert typeLabel == TypeLabel(source.sourceType);
      BlocksAppend(top, i);
      contextParts := contextParts + [typeLabel + " " + source.documentName + ":\n" + source.chunkText];
    }
    assert top[..|top|] == top;
    context := Join(contextParts, Separator);
  }

  method SearchFullContext(query: string, clientId: Option<string>, kbRows: seq<KbRow>, clientRows: seq<ClientRow>, sim: Similarity)
    returns (result: RagContext)
    ensures result == FullContext(query, clientId, kbRows, clientRows, sim)
  {
    var sources := GatherSources(query, clientId, kbRows, clientRows, sim);
    var topSources := SliceTo(SortByScore(sources), MaxSources);
    var context := RenderContext(topSources);
    result := RagContext(topSources, context);
  }

  /** The two searches of `searchFullContext`, the client one only with a client id. */
  method GatherSources(query: string, clientId: Option<string>, kbRows: seq<KbRow>, clientRows: seq<ClientRow>, sim: Similarity)
    returns (sources: seq<RagSource>)
    ensures sources == Gathered(query, clientId, kbRows, clientRows, sim)
  {
    sources := [];
    var kbResults := SearchKnowledgeBase(query, kbRows, 3, sim);
    sources := sources + kbResults;
    if clientId.Some? && clientId.value != [] {
      var clientResults := SearchClientDocuments(query, clientRows, clientId.value, 2, sim);
      sources := sources + clientResults;
    }
  }

  /** At most three knowledge-base and two client sources are gathered, so the slice to
      five drops nothing: the result is every gathered source, sorted. */
  lemma NothingDropped(query: string, clientId: Option<string>, kbRows: seq<KbRow>, clientRows: seq<ClientRow>, sim: Similarity)
    ensures var g := Gathered(query, clientId, kbRows, clientRows, sim);
      |g| <= MaxSources && FullContext(query, clientId, kbRows, clientRows, sim).sources == SortByScore(g)
  {
  }

  /** The number of sources: min(#kb rows, 3), plus min(#rows of the client, 2) when there
      is a client. */
  lemma SourceCount(query: string, clientId: Option<string>, kbRows: seq<KbRow>, clientRows: seq<ClientRow>, sim: Similarity)
    ensures |FullContext(query, clientId, kbRows, clientRows, sim).sources|
         == Min(|kbRows|, 3) + (if HasClient(clientId) then Min(|RowsOfClient(clientRows, clientId.value)|, 2) else 0)
  {
    NothingDropped(query, clientId, kbRows, clientRows, sim);
  }

  /** Without a client id (absent or empty) no client source is returned. */
  lemma NoClientSources(query: string, clientId: Option<string>, kbRows: seq<KbRow>, clientRows: seq<ClientRow>, sim: Similarity)
    requires !HasClient(clientId)
    ensures forall s :: s in FullContext(query, clientId, kbRows, clientRows, sim).sources ==> s.sourceType == KnowledgeBase
  {
    var g := Gathered(query, clientId, kbRows, clientRows, sim);
    NothingDropped(query, clientId, kbRows, clientRows, sim);
    KbSearchFacts(query, kbRows, 3, sim);
    SortPermutes(g);
    forall s | s in SortByScore(g) ensures s.sourceType == KnowledgeBase {
      assert s in multiset(g);
    }
  }

  /** With empty tables the result is no sources and the empty context. */
  lemma EmptyStore(query: string, clientId: Option<string>, sim: Similarity)
    ensures FullContext(query, clientId, [], [], sim) == RagContext([], "")
  {
    NothingDropped(query, clientId, [], [], sim);
    assert Filter([], OfClient(if clientId.Some? then clientId.value else "")) == [];
  }

  /** The context holds one block per source, in the order of the sources: its length is
      the blocks' lengths plus one separator between each two. */
  lemma ContextLayout(query: string, clientId: Option<string>, kbRows: seq<KbRow>, clientRows: seq<ClientRow>, sim: Similarity)
    ensures var r := FullContext(query, clientId, kbRows, clientRows, sim);
      r.sources != [] ==> |r.context| == TotalLength(Blocks(r.sources)) + (|r.sources| - 1) * |Separator|
    ensures var r := FullContext(query, clientId, kbRows, clientRows, sim);
      |r.sources| == 1 ==> r.context == Block(r.sources[0])
  {
    var r := FullContext(query, clientId, kbRows, clientRows, sim);
    if r.sources != [] {
      JoinLength(Blocks(r.sources), Separator);
    }
  }

  // ---------------------------------------------------------------------------
  // formatSourcesForDisplay
  // ---------------------------------------------------------------------------

  function DisplayPrefix(t: SourceType): string
  {
    match t
    case KnowledgeBase => "KB"
    case ClientDocument => "Cliente"
  }

  /** `sources.map(s => `${type}: ${s.documentName}`)`. */
  function FormatSourcesForDisplay(sources: seq<RagSource>): (lines: seq<string>)
    ensures |lines| == |sources|
  {
    seq(|sources|, i requires 0 <= i < |sources| => DisplayPrefix(sources[i].sourceType) + ": " + sources[i].documentName)
  }

  /** Reads a display line back into its source type and document name. */
  function ParseDisplay(line: string): Option<(SourceType, string)>
  {
    if |line| >= 4 && line[..4] == "KB: " then Some((KnowledgeBase, line[4..]))
    else if |line| >= 9 && line[..9] == "Cliente: " then Some((ClientDocument, line[9..]))
    else None
  }

  /** Each display line names its source's type and document, in the order of the sources. */
  lemma DisplayRoundTrip(sources: seq<RagSource>)
    ensures forall i :: 0 <= i < |sources| ==>
              ParseDisplay(FormatSourcesForDisplay(sources)[i]) == Some((sources[i].sourceType, sources[i].documentName))
  {
    forall i | 0 <= i < |sources|
      ensures ParseDisplay(FormatSourcesForDisplay(sources)[i]) == Some((sources[i].sourceType, sources[i].documentName))
    {
      var line := FormatSourcesForDisplay(sources)[i];
      var name := sources[i].documentName;
      match sources[i].sourceType
      case KnowledgeBase =>
        assert line == "KB: " + name;
        assert line[..4] == "KB: " && line[4..] == name;
      case ClientDocument =>
        assert line == "Cliente: " + name;
        assert line[..4] != "KB: " by { assert line[0] == 'C'; }
        assert line[..9] == "Cliente: " && line[9..] == name;
    }
  }
}
