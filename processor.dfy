/** The ingestion processor (ingestion-batch/batch/processor.py): the overlapping chunk splitter
    and the conversion of one Scrapbox page into indexable documents. */
module Processor {
  import opened Wrappers
  import opened Text
  import opened Slicing
  import opened Models

  /** The processor's read-only settings: the Scrapbox project name, the chunk size and the chunk
      overlap (ingestion-batch/batch/config.py). */
  datatype Config = Config(project: string, chunkSize: nat, chunkOverlap: nat) {
    /** The splitter only terminates when each step advances: 0 <= overlap < size. */
    predicate Valid() { chunkOverlap < chunkSize }
  }

  const DefaultConfig := Config("dummy-project", 500, 50)

  /** A Scrapbox page as fetched; a missing key of the JSON object is `None`. */
  datatype Line = Line(text: Option<string>)
  datatype Page = Page(title: Option<string>, updated: Option<int>, lines: Option<seq<Line>>)

  /** What the encoder service answers for one chunk: a vector, or a failure of the request. */
  datatype EncodeReply = Encoded(vector: SparseVector) | EncodeFailed(message: string)

  /** One document to index: a chunk of a page with its metadata and sparse vector. */
  datatype Doc = Doc(title: string, text: string, url: string, updated: int, vector: SparseVector)

  /** Splits `text` into windows of `size` characters, each starting `size - overlap` characters
      after the previous one, until a window reaches the end of the text. */
  method SplitText(text: string, size: nat, overlap: nat) returns (chunks: seq<string>)
    requires overlap < size
    ensures chunks == Windows(text, size, overlap)
    ensures |text| == 0 ==> chunks == []
  {
    if |text| == 0 {
      return [];
    }
    chunks := [];
    var start := 0;
    while start < |text|
      invariant start < |text|
      invariant chunks + Windows(text[start..], size, overlap) == Windows(text, size, overlap)
      decreases |text| - start
    {
      var end := start + size;
      ghost var rest := text[start..];
      chunks := chunks + [Slice(text, start, end)];
      if end >= |text| {
        assert Slice(text, start, end) == rest;
        assert Windows(rest, size, overlap) == [rest];
        break;
      }
      assert Slice(text, start, end) == rest[..size];
      assert rest[size - overlap..] == text[start + (size - overlap)..];
      assert Windows(rest, size, overlap) == [rest[..size]] + Windows(rest[size - overlap..], size, overlap);
      start := start + (size - overlap);
    }
  }

  /** The vector of an encoder reply; a failed request counts as the empty vector. */
  function GetSparseVector(reply: EncodeReply): SparseVector {
    match reply
    case Encoded(vector) => vector
    case EncodeFailed(_) => []
  }

  /** The encoder service: its reply to the request for chunk `j` of page number `p`, made with
      the chunk's text. Each chunk is a request of its own, so two chunks with the same text can
      get different replies. */
  type Encoder = (string, nat, nat) -> EncodeReply

  function TitleOf(page: Page): string {
    page.title.GetOr("")
  }

  /** The page's `updated` time in milliseconds; a missing time counts as 0. */
  function UpdatedMillis(page: Page): int {
    page.updated.GetOr(0) * 1000
  }

  /** The page's address; `quotedTitle` is the percent-encoded title. */
  function PageUrl(project: string, quotedTitle: string): string {
    "https://scrapbox.io/" + project + "/" + quotedTitle
  }

  /** The texts of the page's lines, a missing text counting as "". */
  function LineTexts(page: Page): seq<string> {
    var lines := page.lines.GetOr([]);
    seq(|lines|, i requires 0 <= i < |lines| => lines[i].text.GetOr(""))
  }

  /** The page's full text: its lines joined by newlines. */
  function FullText(page: Page): (t: string)
    ensures forall i :: 0 <= i < |LineTexts(page)| ==> IsInfix(LineTexts(page)[i], t)
  {
    var ts := LineTexts(page);
    forall i | 0 <= i < |ts| ensures IsInfix(ts[i], Join("\n", ts)) {
      JoinHasPart("\n", ts, i);
    }
    Join("\n", ts)
  }

  /** The vector of chunk `j` of page number `pageNo`. */
  function ChunkVector(chunks: seq<string>, encode: Encoder, pageNo: nat, j: nat): SparseVector
    requires j < |chunks|
  {
    GetSparseVector(encode(chunks[j], pageNo, j))
  }

  /** The documents for the chunks of page number `pageNo` in order, skipping every chunk whose
      vector is empty. */
  function ChunkDocs(title: string, url: string, updated: int, chunks: seq<string>, encode: Encoder,
                     pageNo: nat): seq<Doc>
    decreases |chunks|
  {
    if |chunks| == 0 then []
    else
      var j := |chunks| - 1;
      var vector := ChunkVector(chunks, encode, pageNo, j);
      ChunkDocs(title, url, updated, chunks[..j], encode, pageNo)
        + (if |vector| == 0 then [] else [Doc(title, chunks[j], url, updated, vector)])
  }

  /** The positions of the chunks whose vector is not empty. */
  function KeptChunks(chunks: seq<string>, encode: Encoder, pageNo: nat): seq<nat>
    decreases |chunks|
  {
    if |chunks| == 0 then []
    else
      var j := |chunks| - 1;
      KeptChunks(chunks[..j], encode, pageNo) + (if |ChunkVector(chunks, encode, pageNo, j)| == 0 then [] else [j])
  }

  /** KeptChunks lists, in increasing order, exactly the positions whose vector is not empty. */
  lemma KeptChunksSpec(chunks: seq<string>, encode: Encoder, pageNo: nat)
    ensures |KeptChunks(chunks, encode, pageNo)| <= |chunks|
    ensures forall m :: 0 <= m < |KeptChunks(chunks, encode, pageNo)| ==>
      KeptChunks(chunks, encode, pageNo)[m] < |chunks|
      && |ChunkVector(chunks, encode, pageNo, KeptChunks(chunks, encode, pageNo)[m])| > 0
    ensures forall m, m' :: 0 <= m < m' < |KeptChunks(chunks, encode, pageNo)| ==>
      KeptChunks(chunks, encode, pageNo)[m] < KeptChunks(chunks, encode, pageNo)[m']
    ensures forall j :: 0 <= j < |chunks| && |ChunkVector(chunks, encode, pageNo, j)| > 0 ==>
      j in KeptChunks(chunks, encode, pageNo)
  {
    KeptChunksBounded(chunks, encode, pageNo);
    KeptChunksIncreasing(chunks, encode, pageNo);
    KeptChunksComplete(chunks, encode, pageNo);
  }

  lemma {:induction false} KeptChunksBounded(chunks: seq<string>, encode: Encoder, pageNo: nat)
    ensures |KeptChunks(chunks, encode, pageNo)| <= |chunks|
    ensures forall m :: 0 <= m < |KeptChunks(chunks, encode, pageNo)| ==>
      KeptChunks(chunks, encode, pageNo)[m] < |chunks|
      && |ChunkVector(chunks, encode, pageNo, KeptChunks(chunks, encode, pageNo)[m])| > 0
    decreases |chunks|
  {
    if |chunks| > 0 {
      var j := |chunks| - 1;
      var init := chunks[..j];
      KeptChunksBounded(init, encode, pageNo);
      var before := KeptChunks(init, encode, pageNo);
      var ks := KeptChunks(chunks, encode, pageNo);
      forall m | 0 <= m < |ks|
        ensures ks[m] < |chunks| && |ChunkVector(chunks, encode, pageNo, ks[m])| > 0
      {
        if m < |before| {
          assert ks[m] == before[m];
          assert ChunkVector(chunks, encode, pageNo, ks[m]) == ChunkVector(init, encode, pageNo, before[m]);
        }
      }
    }
  }

  lemma {:induction false} KeptChunksIncreasing(chunks: seq<string>, encode: Encoder, pageNo: nat)
    ensures forall m, m' :: 0 <= m < m' < |KeptChunks(chunks, encode, pageNo)| ==>
      KeptChunks(chunks, encode, pageNo)[m] < KeptChunks(chunks, encode, pageNo)[m']
    decreases |chunks|
  {
    if |chunks| > 0 {
      var j := |chunks| - 1;
      var init := chunks[..j];
      KeptChunksIncreasing(init, encode, pageNo);
      KeptChunksBounded(init, encode, pageNo);
      var before := KeptChunks(init, encode, pageNo);
      var ks := KeptChunks(chunks, encode, pageNo);
      forall m, m' | 0 <= m < m' < |ks| ensures ks[m] < ks[m'] {
        assert ks[m] == before[m] < j;
        if m' < |before| {
          assert ks[m'] == before[m'];
        }
      }
    }
  }

  lemma {:induction false} KeptChunksComplete(chunks: seq<string>, encode: Encoder, pageNo: nat)
    ensures forall j :: 0 <= j < |chunks| && |ChunkVector(chunks, encode, pageNo, j)| > 0 ==>
      j in KeptChunks(chunks, encode, pageNo)
    decreases |chunks|
  {
    if |chunks| > 0 {
      var j := |chunks| - 1;
      var init := chunks[..j];
      KeptChunksComplete(init, encode, pageNo);
      var before := KeptChunks(init, encode, pageNo);
      var ks := KeptChunks(chunks, encode, pageNo);
      forall i | 0 <= i < |chunks| && |ChunkVector(chunks, encode, pageNo, i)| > 0 ensures i in ks {
        if i < j {
          assert ChunkVector(init, encode, pageNo, i) == ChunkVector(chunks, encode, pageNo, i);
          assert i in before;
        }
      }
    }
  }

  /** The documents are exactly one per kept chunk, in chunk order: document m holds the page
      metadata, the text of the m-th kept chunk and that chunk's vector. */
  lemma {:induction false} ChunkDocsSpec(title: string, url: string, updated: int, chunks: seq<string>,
                                         encode: Encoder, pageNo: nat)
    ensures |ChunkDocs(title, url, updated, chunks, encode, pageNo)| == |KeptChunks(chunks, encode, pageNo)|
    ensures forall m :: 0 <= m < |ChunkDocs(title, url, updated, chunks, encode, pageNo)| ==>
      KeptChunks(chunks, encode, pageNo)[m] < |chunks|
      && ChunkDocs(title, url, updated, chunks, encode, pageNo)[m]
         == Doc(title, chunks[KeptChunks(chunks, encode, pageNo)[m]], url, updated,
                ChunkVector(chunks, encode, pageNo, KeptChunks(chunks, encode, pageNo)[m]))
    decreases |chunks|
  {
    if |chunks| > 0 {
      var j := |chunks| - 1;
      var init := chunks[..j];
      ChunkDocsSpec(title, url, updated, init, encode, pageNo);
      KeptChunksSpec(init, encode, pageNo);
      var before := ChunkDocs(title, url, updated, init, encode, pageNo);
      var ksBefore := KeptChunks(init, encode, pageNo);
      var docs := ChunkDocs(title, url, updated, chunks, encode, pageNo);
      var ks := KeptChunks(chunks, encode, pageNo);
      assert docs[..|before|] == before && ks[..|ksBefore|] == ksBefore;
      forall m | 0 <= m < |docs|
        ensures ks[m] < |chunks| && docs[m] == Doc(title, chunks[ks[m]], url, updated, ChunkVector(chunks, encode, pageNo, ks[m]))
      {
        if m < |before| {
          assert docs[m] == docs[..|before|][m] && ks[m] == ks[..|ksBefore|][m];
          assert ks[m] < j;
        }
      }
    }
  }

  /** The chunks of a page's full text. */
  function PageChunks(page: Page, cfg: Config): seq<string>
    requires cfg.Valid()
  {
    Windows(FullText(page), cfg.chunkSize, cfg.chunkOverlap)
  }

  /** The documents built from the page numbered `pageNo`. */
  function PageDocs(page: Page, cfg: Config, quote: string -> string, encode: Encoder, pageNo: nat): seq<Doc>
    requires cfg.Valid()
  {
    var title := TitleOf(page);
    ChunkDocs(title, PageUrl(cfg.project, quote(title)), UpdatedMillis(page), PageChunks(page, cfg), encode, pageNo)
  }

  /** Converts one page into documents: join the lines, split the text, encode each chunk with a
      request of its own and keep a document for each chunk whose vector is not empty. `pageNo`
      tells the page's encoder requests apart from those of other pages. */
  method ProcessPage(page: Page, cfg: Config, quote: string -> string, encode: Encoder, pageNo: nat)
    returns (docs: seq<Doc>)
    requires cfg.Valid()
    ensures docs == PageDocs(page, cfg, quote, encode, pageNo)
  {
    var title := TitleOf(page);
    var updated := UpdatedMillis(page);
    var url := PageUrl(cfg.project, quote(title));
    var fullText := Join("\n", LineTexts(page));
    var chunks := SplitText(fullText, cfg.chunkSize, cfg.chunkOverlap);
    docs := [];
    for i := 0 to |chunks|
      invariant docs == ChunkDocs(title, url, updated, chunks[..i], encode, pageNo)
    {
      var vector := GetSparseVector(encode(chunks[i], pageNo, i));
      assert chunks[..i + 1][..i] == chunks[..i];
      if |vector| > 0 {
        docs := docs + [Doc(title, chunks[i], url, updated, vector)];
      }
    }
    assert chunks[..|chunks|] == chunks;
  }

  function Texts(docs: seq<Doc>): (ts: seq<string>)
    ensures |ts| == |docs| && forall i :: 0 <= i < |docs| ==> ts[i] == docs[i].text
  {
    seq(|docs|, i requires 0 <= i < |docs| => docs[i].text)
  }

  /** If every chunk encodes to a non-empty vector, there is one document per chunk, in order. */
  lemma {:induction false} ChunkDocsAllKept(title: string, url: string, updated: int, chunks: seq<string>,
                                            encode: Encoder, pageNo: nat)
    requires forall j :: 0 <= j < |chunks| ==> |ChunkVector(chunks, encode, pageNo, j)| > 0
    ensures Texts(ChunkDocs(title, url, updated, chunks, encode, pageNo)) == chunks
    decreases |chunks|
  {
    if |chunks| > 0 {
      var init := chunks[..|chunks| - 1];
      forall j | 0 <= j < |init| ensures |ChunkVector(init, encode, pageNo, j)| > 0 {
        assert ChunkVector(init, encode, pageNo, j) == ChunkVector(chunks, encode, pageNo, j);
      }
      ChunkDocsAllKept(title, url, updated, init, encode, pageNo);
      assert chunks == init + [chunks[|chunks| - 1]];
    }
  }

  /** If the encoder yields nothing for every chunk (for instance because it is down), the page
      gives no documents. */
  lemma {:induction false} ChunkDocsNoneKept(title: string, url: string, updated: int, chunks: seq<string>,
                                             encode: Encoder, pageNo: nat)
    requires forall j :: 0 <= j < |chunks| ==> |ChunkVector(chunks, encode, pageNo, j)| == 0
    ensures ChunkDocs(title, url, updated, chunks, encode, pageNo) == []
    decreases |chunks|
  {
    if |chunks| > 0 {
      var init := chunks[..|chunks| - 1];
      forall j | 0 <= j < |init| ensures |ChunkVector(init, encode, pageNo, j)| == 0 {
        assert ChunkVector(init, encode, pageNo, j) == ChunkVector(chunks, encode, pageNo, j);
      }
      ChunkDocsNoneKept(title, url, updated, init, encode, pageNo);
    }
  }

  /** Every document of a page carries the page's title, its URL and its update time in
      milliseconds, and holds one chunk of the page's full text and a non-empty vector. */
  lemma PageDocsMetadata(page: Page, cfg: Config, quote: string -> string, encode: Encoder, pageNo: nat)
    requires cfg.Valid()
    ensures forall d :: d in PageDocs(page, cfg, quote, encode, pageNo) ==>
      && d.title == page.title.GetOr("")
      && d.url == "https://scrapbox.io/" + cfg.project + "/" + quote(page.title.GetOr(""))
      && d.updated == page.updated.GetOr(0) * 1000
      && d.text in Windows(Join("\n", LineTexts(page)), cfg.chunkSize, cfg.chunkOverlap)
      && |d.vector| > 0
  {
    var title := TitleOf(page);
    var chunks := PageChunks(page, cfg);
    var docs := PageDocs(page, cfg, quote, encode, pageNo);
    ChunkDocsSpec(title, PageUrl(cfg.project, quote(title)), UpdatedMillis(page), chunks, encode, pageNo);
    KeptChunksSpec(chunks, encode, pageNo);
    forall d | d in docs
      ensures d.title == title && d.url == PageUrl(cfg.project, quote(title)) && d.updated == UpdatedMillis(page)
      ensures d.text in chunks && |d.vector| > 0
    {
      var m :| 0 <= m < |docs| && docs[m] == d;
    }
  }

  /** With the default settings (500 / 50), a 1000-character text gives three chunks of 500, 500
      and 100 characters, starting at 0, 450 and 900. */
  lemma SplitThousand(text: string)
    requires |text| == 1000
    ensures var w := Windows(text, DefaultConfig.chunkSize, DefaultConfig.chunkOverlap);
      && |w| == 3
      && w[0] == text[..500] && w[1] == text[450..950] && w[2] == text[900..]
      && |w[0]| == 500 && |w[1]| == 500 && |w[2]| == 100
  {
    var r1 := text[450..];
    var r2 := r1[450..];
    assert r2 == text[900..];
    assert Windows(r2, 500, 50) == [r2];
    assert Windows(r1, 500, 50) == [r1[..500]] + [r2];
    assert r1[..500] == text[450..950];
  }
}
