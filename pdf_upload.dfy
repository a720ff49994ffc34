/** app/api/upload/route.ts: the `pagerender` callback that assembles a page's text from
    the PDF's text items, the page list with its fallback, and the batch of page documents
    written for the non-blank pages.

    The PDF parser is an input: the pages it renders, in render order, each as its list of
    text items, and the text of the plain parse used as the fallback. An item's vertical
    position (`transform[5]`) is only ever compared for equality, so it is an opaque type
    `Y`. */
module PdfUpload {
  import opened JsBuiltins

  // ---------------------------------------------------------------------------
  // pagerender: the line-join rule
  // ---------------------------------------------------------------------------

  /** A text item: its string and its vertical position. */
  datatype TextItem<Y> = TextItem(str: string, y: Y)

  /** What goes before item `k`: a newline exactly when its position differs from the
      previous item's; nothing before the first item. */
  function Gap<Y(==)>(items: seq<TextItem<Y>>, k: int): string
    requires 0 <= k < |items|
  {
    if k > 0 && items[k - 1].y != items[k].y then "\n" else ""
  }

  /** The page text: the item strings in order, each preceded by its gap. */
  function PageText<Y(==)>(items: seq<TextItem<Y>>): string
    decreases |items|
  {
    if items == [] then ""
    else PageText(items[..|items| - 1]) + Gap(items, |items| - 1) + items[|items| - 1].str
  }

  lemma PageTextStep<Y>(items: seq<TextItem<Y>>, i: int)
    requires 0 <= i < |items|
    ensures PageText(items[..i + 1]) == PageText(items[..i]) + Gap(items, i) + items[i].str
  {
    assert items[..i + 1][..i] == items[..i];
  }

  /** The callback's loop over `content.items`, with `lastY` undefined before the first
      item. */
  method RenderPage<Y(==)>(items: seq<TextItem<Y>>) returns (text: string)
    ensures text == PageText(items)
  {
    var lastY: Option<Y> := None;
    text := "";
    for i := 0 to |items|
      invariant text == PageText(items[..i])
      invariant lastY == if i == 0 then None else Some(items[i - 1].y)
    {
      var item := items[i];
      PageTextStep(items, i);
      if lastY.None? || lastY.value == item.y {
        text := text + item.str;
      } else {
        text := text + "\n" + item.str;
      }
      lastY := Some(item.y);
    }
    assert items[..|items|] == items;
  }

  /** The number of newline characters in `s`. */
  function Newlines(s: string): nat
  {
    multiset(s)['\n']
  }

  /** How many items sit on a different position from the item before them. */
  function PositionChanges<Y(==)>(items: seq<TextItem<Y>>): nat
    decreases |items|
  {
    if items == [] then 0
    else PositionChanges(items[..|items| - 1]) + |Gap(items, |items| - 1)|
  }

  /** The newlines the item strings bring themselves. */
  function ItemNewlines<Y>(items: seq<TextItem<Y>>): nat
    decreases |items|
  {
    if items == [] then 0
    else ItemNewlines(items[..|items| - 1]) + Newlines(items[|items| - 1].str)
  }

  /** The join adds one newline per change of position and no other character: the page's
      newlines are those of the items plus one per change. */
  lemma {:induction false} PageNewlines<Y>(items: seq<TextItem<Y>>)
    ensures Newlines(PageText(items)) == ItemNewlines(items) + PositionChanges(items)
    decreases |items|
  {
    if items != [] {
      var n := |items|;
      var prefix := items[..n - 1];
      var gap := Gap(items, n - 1);
      PageNewlines(prefix);
      GapNewlines(items, n - 1);
      assert PageText(items) == PageText(prefix) + gap + items[n - 1].str;
      NewlinesConcat(PageText(prefix), gap, items[n - 1].str);
    }
  }

  lemma NewlinesConcat(a: string, b: string, c: string)
    ensures Newlines(a + b + c) == Newlines(a) + Newlines(b) + Newlines(c)
  {
    assert multiset(a + b + c) == multiset(a) + multiset(b) + multiset(c);
  }

  lemma GapNewlines<Y>(items: seq<TextItem<Y>>, k: int)
    requires 0 <= k < |items|
    ensures Newlines(Gap(items, k)) == |Gap(items, k)|
  {
    assert multiset("\n") == multiset{'\n'};
  }

  /** The page is as long as its items plus one character per change of position. */
  lemma {:induction false} PageLength<Y>(items: seq<TextItem<Y>>)
    ensures |PageText(items)| == TotalItemLength(items) + PositionChanges(items)
    decreases |items|
  {
    if items != [] {
      PageLength(items[..|items| - 1]);
    }
  }

  /** The total length of the item strings. */
  function TotalItemLength<Y>(items: seq<TextItem<Y>>): nat
    decreases |items|
  {
    if items == [] then 0
    else TotalItemLength(items[..|items| - 1]) + |items[|items| - 1].str|
  }

  /** The first item is never prefixed: the page text starts with its string. */
  lemma {:induction false} FirstItemUnprefixed<Y>(items: seq<TextItem<Y>>)
    requires items != []
    ensures |items[0].str| <= |PageText(items)|
    ensures PageText(items)[..|items[0].str|] == items[0].str
    decreases |items|
  {
    var n := |items|;
    if n == 1 {
      assert items[..0] == [];
    } else {
      var prefix := items[..n - 1];
      FirstItemUnprefixed(prefix);
      assert prefix[0] == items[0];
      var rest := Gap(items, n - 1) + items[n - 1].str;
      assert PageText(items) == PageText(prefix) + rest;
      assert PageText(items)[..|items[0].str|] == PageText(prefix)[..|items[0].str|];
    }
  }

  /** Items that all sit on one position are simply concatenated. */
  lemma {:induction false} OneLine<Y>(items: seq<TextItem<Y>>, y: Y)
    requires forall k :: 0 <= k < |items| ==> items[k].y == y
    ensures PositionChanges(items) == 0
    ensures |PageText(items)| == TotalItemLength(items)
    decreases |items|
  {
    if items != [] {
      OneLine(items[..|items| - 1], y);
    }
    PageLength(items);
  }

  // ---------------------------------------------------------------------------
  // The page list
  // ---------------------------------------------------------------------------

  /** The trimmed text of each rendered page, in render order. */
  function RenderedPages<Y(==)>(rendered: seq<seq<TextItem<Y>>>): (pages: seq<string>)
    ensures |pages| == |rendered|
    decreases |rendered|
  {
    if rendered == [] then []
    else RenderedPages(rendered[..|rendered| - 1]) + [Trim(PageText(rendered[|rendered| - 1]))]
  }

  /** `pages`: each rendered page's text, trimmed, in render order; when no page rendered,
      the trimmed fallback text alone. */
  function Pages<Y(==)>(rendered: seq<seq<TextItem<Y>>>, fallbackText: string): (pages: seq<string>)
    ensures |pages| == if rendered == [] then 1 else |rendered|
  {
    if rendered == [] then [Trim(fallbackText)] else RenderedPages(rendered)
  }

  /** Page `i` is the trimmed text of the `i`-th rendered page. */
  lemma {:induction false} RenderedPageAt<Y>(rendered: seq<seq<TextItem<Y>>>, i: int)
    requires 0 <= i < |rendered|
    ensures RenderedPages(rendered)[i] == Trim(PageText(rendered[i]))
    decreases |rendered|
  {
    var n := |rendered|;
    var init := rendered[..n - 1];
    var last := Trim(PageText(rendered[n - 1]));
    assert RenderedPages(rendered) == RenderedPages(init) + [last];
    if i < n - 1 {
      RenderedPageAt(init, i);
      assert init[i] == rendered[i];
    }
  }

  /** Every page is already trimmed: no page starts or ends with whitespace. */
  lemma PagesTrimmed<Y>(rendered: seq<seq<TextItem<Y>>>, fallbackText: string)
    ensures var pages := Pages(rendered, fallbackText);
      forall i :: 0 <= i < |pages| ==> Trim(pages[i]) == pages[i]
  {
    var pages := Pages(rendered, fallbackText);
    forall i | 0 <= i < |pages| ensures Trim(pages[i]) == pages[i] {
      if rendered == [] {
        TrimIdempotent(fallbackText);
      } else {
        RenderedPageAt(rendered, i);
        TrimIdempotent(PageText(rendered[i]));
      }
    }
  }

  lemma RenderedStep<Y>(rendered: seq<seq<TextItem<Y>>>, p: int)
    requires 0 <= p < |rendered|
    ensures RenderedPages(rendered[..p + 1]) == RenderedPages(rendered[..p]) + [Trim(PageText(rendered[p]))]
  {
    assert rendered[..p + 1][..p] == rendered[..p];
  }

  /** The callbacks push one trimmed page each; the fallback parse runs only when none
      did. */
  method CollectPages<Y(==)>(rendered: seq<seq<TextItem<Y>>>, fallbackText: string) returns (pages: seq<string>)
    ensures pages == Pages(rendered, fallbackText)
  {
    pages := [];
    for p := 0 to |rendered|
      invariant pages == RenderedPages(rendered[..p])
    {
      var text := RenderPage(rendered[p]);
      RenderedStep(rendered, p);
      pages := pages + [Trim(text)];
    }
    assert rendered[..|rendered|] == rendered;
    if |pages| == 0 {
      pages := pages + [Trim(fallbackText)];
    }
  }

  // ---------------------------------------------------------------------------
  // The page documents
  // ---------------------------------------------------------------------------

  /** A `document_pages` document (its `created_at` timestamp is not modelled). */
  datatype PageDocument = PageDocument(notebookId: string, filename: string, pageNum: int, text: string)

  /** The documents written for `pages`: one per non-blank page, numbered by the page's
      position plus one. */
  function PageDocuments(pages: seq<string>, notebookId: string, filename: string): (docs: seq<PageDocument>)
    ensures |docs| <= |pages|
    decreases |pages|
  {
    if pages == [] then []
    else
      var n := |pages|;
      PageDocuments(pages[..n - 1], notebookId, filename)
        + (if pages[n - 1] != [] then [PageDocument(notebookId, filename, n, pages[n - 1])] else [])
  }

  /** Every document is a non-blank page, numbered by its position plus one, and carries
      the request's notebook id and file name. */
  lemma {:induction false} DocumentsArePages(pages: seq<string>, notebookId: string, filename: string)
    ensures forall d :: d in PageDocuments(pages, notebookId, filename) ==>
              && 1 <= d.pageNum <= |pages| && d.text == pages[d.pageNum - 1] && d.text != []
              && d.notebookId == notebookId && d.filename == filename
    decreases |pages|
  {
    if pages != [] {
      var n := |pages|;
      DocumentsArePages(pages[..n - 1], notebookId, filename);
    }
  }

  /** Every non-blank page has its document, and the gaps of the blank pages stay in the
      numbering. */
  lemma {:induction false} EveryPageWritten(pages: seq<string>, notebookId: string, filename: string, i: int)
    requires 0 <= i < |pages| && pages[i] != []
    ensures PageDocument(notebookId, filename, i + 1, pages[i]) in PageDocuments(pages, notebookId, filename)
    decreases |pages|
  {
    var n := |pages|;
    if i < n - 1 {
      EveryPageWritten(pages[..n - 1], notebookId, filename, i);
    }
  }

  predicate Increasing(docs: seq<PageDocument>)
  {
    forall j, k :: 0 <= j < k < |docs| ==> docs[j].pageNum < docs[k].pageNum
  }

  /** The documents come in increasing page order. */
  lemma {:induction false} PageNumbersIncrease(pages: seq<string>, notebookId: string, filename: string)
    ensures Increasing(PageDocuments(pages, notebookId, filename))
    decreases |pages|
  {
    if pages != [] {
      var n := |pages|;
      var front := PageDocuments(pages[..n - 1], notebookId, filename);
      var docs := PageDocuments(pages, notebookId, filename);
      PageNumbersIncrease(pages[..n - 1], notebookId, filename);
      DocumentsArePages(pages[..n - 1], notebookId, filename);
      var last := if pages[n - 1] != [] then [PageDocument(notebookId, filename, n, pages[n - 1])] else [];
      assert docs == front + last;
      forall j, k | 0 <= j < k < |docs| ensures docs[j].pageNum < docs[k].pageNum {
        assert docs[j] == front[j];
        assert front[j] in front;
        assert front[j].pageNum <= n - 1;
        if k < |front| {
          assert docs[k] == front[k];
          assert front[j].pageNum < front[k].pageNum;
        } else {
          assert docs[k] == last[0];
        }
      }
    }
  }

  /** The `document_pages` collection. */
  class PageCollection {
    var documents: seq<PageDocument>

    constructor ()
      ensures documents == []
    {
      documents := [];
    }

    /** `batch.commit()`: the batched writes land together, in order. */
    method Commit(batch: seq<PageDocument>)
      modifies this
      ensures documents == old(documents) + batch
    {
      documents := documents + batch;
    }
  }

  /** The `forEach` over the pages, skipping the blank ones. */
  method BatchPages(pages: seq<string>, notebookId: string, filename: string) returns (batch: seq<PageDocument>)
    ensures batch == PageDocuments(pages, notebookId, filename)
  {
    batch := [];
    for i := 0 to |pages|
      invariant batch == PageDocuments(pages[..i], notebookId, filename)
    {
      assert pages[..i + 1][..i] == pages[..i];
      if pages[i] == [] {
        continue;
      }
      batch := batch + [PageDocument(notebookId, filename, i + 1, pages[i])];
    }
    assert pages[..|pages|] == pages;
  }

  // ---------------------------------------------------------------------------
  // POST
  // ---------------------------------------------------------------------------

  /** What the PDF parser gives: the rendered pages and the fallback text, or a thrown
      error. */
  datatype Parse<Y> = Parsed(rendered: seq<seq<TextItem<Y>>>, fallbackText: string) | ParseFailed

  datatype UploadResponse = Saved(pageCount: int) | Failed(status: int, error: string)

  const MissingData: string := "Dados faltando"
  const ProcessingError: string := "Erro no processamento"

  /** `!file || !notebookId`: a missing file, or a missing or empty notebook id. */
  predicate MissingInput(filename: Option<string>, notebookId: Option<string>)
  {
    filename.None? || notebookId.None? || notebookId.value == []
  }

  /** The response `POST` gives. */
  function UploadResult<Y(==)>(filename: Option<string>, notebookId: Option<string>, parse: Parse<Y>): UploadResponse
  {
    if MissingInput(filename, notebookId) then Failed(400, MissingData)
    else if parse.ParseFailed? then Failed(500, ProcessingError)
    else Saved(|Pages(parse.rendered, parse.fallbackText)|)
  }

  /** The documents `POST` adds to the collection. */
  function Written<Y(==)>(filename: Option<string>, notebookId: Option<string>, parse: Parse<Y>): seq<PageDocument>
  {
    if MissingInput(filename, notebookId) || parse.ParseFailed? then []
    else PageDocuments(Pages(parse.rendered, parse.fallbackText), notebookId.value, filename.value)
  }

  /** The handler: the file is given by its name (only the name is stored). */
  method Post<Y(==)>(collection: PageCollection, filename: Option<string>, notebookId: Option<string>, parse: Parse<Y>)
    returns (response: UploadResponse)
    modifies collection
    ensures response == UploadResult(filename, notebookId, parse)
    ensures collection.documents == old(collection.documents) + Written(filename, notebookId, parse)
  {
    if filename.None? || notebookId.None? || notebookId.value == [] {
      return Failed(400, MissingData);
    }
    if parse.ParseFailed? {
      return Failed(500, ProcessingError);
    }
    var pages := CollectPages(parse.rendered, parse.fallbackText);
    var batch := BatchPages(pages, notebookId.value, filename.value);
    collection.Commit(batch);
    response := Saved(|pages|);
  }

  /** The reported count is the number of pages, blank ones included: at least the number
      of documents written, and one when only the fallback ran. */
  lemma CountIncludesBlankPages<Y>(filename: Option<string>, notebookId: Option<string>, parse: Parse<Y>)
    requires !MissingInput(filename, notebookId) && parse.Parsed?
    ensures var r := UploadResult(filename, notebookId, parse);
      && r.Saved?
      && |Written(filename, notebookId, parse)| <= r.pageCount
      && r.pageCount == (if parse.rendered == [] then 1 else |parse.rendered|)
  {
  }

  /** The two error responses: a missing file or notebook id is a 400, a parser error a
      500, and in both cases nothing is written; otherwise the upload is saved. */
  lemma RejectedWritesNothing<Y>(filename: Option<string>, notebookId: Option<string>, parse: Parse<Y>)
    ensures UploadResult(filename, notebookId, parse).Saved? <==> !MissingInput(filename, notebookId) && parse.Parsed?
    ensures MissingInput(filename, notebookId) ==> UploadResult(filename, notebookId, parse) == Failed(400, MissingData)
    ensures !MissingInput(filename, notebookId) && parse.ParseFailed? ==>
              UploadResult(filename, notebookId, parse) == Failed(500, ProcessingError)
    ensures !UploadResult(filename, notebookId, parse).Saved? ==> Written(filename, notebookId, parse) == []
  {
  }

  /** A page whose text is only whitespace writes no document but still counts. */
  lemma BlankPageSkipped<Y>(filename: string, notebookId: string, rendered: seq<seq<TextItem<Y>>>, fallbackText: string, i: int)
    requires notebookId != [] && 0 <= i < |rendered| && !HasContent(PageText(rendered[i]))
    ensures var docs := Written(Some(filename), Some(notebookId), Parsed(rendered, fallbackText));
      forall d :: d in docs ==> d.pageNum != i + 1
  {
    var pages := Pages(rendered, fallbackText);
    assert pages == RenderedPages(rendered);
    RenderedPageAt(rendered, i);
    assert pages[i] == [] by {
      TrimEnds(PageText(rendered[i]));
    }
    DocumentsArePages(pages, notebookId, filename);
  }
}
