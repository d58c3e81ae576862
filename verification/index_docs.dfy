/**
 * The offline indexer: every `.pdf` in the corpus directory is extracted,
 * split into chunks, turned into records tagged with a disease category,
 * given embeddings in place, and the whole record list is posted to the
 * document store in batches of 500 that stop at the first failing batch.
 *
 * The PDF extractor, the text splitter, the embedding model and the HTTP
 * POST are parameters: `extract`, `split`, `encode` and `accepts` (whether
 * the POST of the batch with the given number succeeds).
 */
module IndexDocs {
  import opened Text
  import opened Seqs
  import opened Services

  type Embedding = seq<real>

  datatype Metadata = Metadata(doenca: string, tema: string)

  /** A row of the `documents` table; `embedding` is absent until attached. */
  datatype Record = Record(
    source: string,
    chunkIndex: nat,
    content: string,
    metadata: Metadata,
    embedding: Option<Embedding>)

  const BatchSize: nat := 500
  const Tema := "nutrição"

  const Diabetes := "Diabetes"
  const StomachCancer := "Câncer de Estômago"
  const Unspecified := "Geral/Não Especificado"

  // ---------------------------------------------------------------------
  // Category tagging
  // ---------------------------------------------------------------------

  /** The `doenca` tag: an ordered, case-insensitive keyword test on the file name. */
  function Category(filename: string): (category: string)
    ensures category == Diabetes || category == StomachCancer || category == Unspecified
  {
    var name := Lower(filename);
    if Contains(name, "diabetes") then Diabetes
    else if Contains(name, "cancer") || Contains(name, "estomago") then StomachCancer
    else Unspecified
  }

  /** The lower-cased file name has `keyword` somewhere in it. */
  ghost predicate Mentions(filename: string, keyword: string) {
    exists i :: OccursAt(Lower(filename), keyword, i)
  }

  /**
   * The category rule in terms of where keywords occur: "diabetes" wins over
   * everything, then "cancer" or "estomago", and a name with none of them is
   * unspecified.
   */
  lemma CategoryRule(filename: string)
    ensures Category(filename) == Diabetes <==> Mentions(filename, "diabetes")
    ensures Category(filename) == StomachCancer
      <==> !Mentions(filename, "diabetes") && (Mentions(filename, "cancer") || Mentions(filename, "estomago"))
    ensures Category(filename) == Unspecified
      <==> !Mentions(filename, "diabetes") && !Mentions(filename, "cancer") && !Mentions(filename, "estomago")
  {
    var name := Lower(filename);
    ContainsIff(name, "diabetes");
    ContainsIff(name, "cancer");
    ContainsIff(name, "estomago");
  }

  /** The category ignores letter case: lower-casing the name first changes nothing. */
  lemma CategoryIgnoresCase(filename: string)
    ensures Category(Lower(filename)) == Category(filename)
  {
    LowerIdempotent(filename);
  }

  // ---------------------------------------------------------------------
  // Record assembly
  // ---------------------------------------------------------------------

  /** The records `chunk_text` assembles from the splitter's chunks. */
  function ChunkRecords(chunks: seq<string>, filename: string): (records: seq<Record>)
  {
    seq(|chunks|, i requires 0 <= i < |chunks| =>
      Record(filename, i, chunks[i], Metadata(Category(filename), Tema), None))
  }

  /**
   * `chunk_text`: one record per chunk, in the splitter's order, numbered
   * from 0, each carrying the file name, its chunk and the same metadata.
   */
  method ChunkText(text: string, filename: string, split: string -> seq<string>) returns (data: seq<Record>)
    ensures |data| == |split(text)|
    ensures forall i :: 0 <= i < |data| ==>
      && data[i].source == filename
      && data[i].chunkIndex == i
      && data[i].content == split(text)[i]
      && data[i].metadata == Metadata(Category(filename), Tema)
      && data[i].embedding == None
  {
    var chunks := split(text);
    data := [];
    for i := 0 to |chunks|
      invariant |data| == i
      invariant forall k :: 0 <= k < i ==>
        data[k] == Record(filename, k, chunks[k], Metadata(Category(filename), Tema), None)
    {
      var doenca := Category(filename);
      data := data + [Record(filename, i, chunks[i], Metadata(doenca, Tema), None)];
    }
  }

  // ---------------------------------------------------------------------
  // Embedding attachment
  // ---------------------------------------------------------------------

  /** The records after each has been given the embedding of its own content. */
  function WithEmbeddings(records: seq<Record>, encode: string -> Embedding): (embedded: seq<Record>)
  {
    seq(|records|, i requires 0 <= i < |records| =>
      records[i].(embedding := Some(encode(records[i].content))))
  }

  /**
   * `generate_embeddings`: encodes every record's content and stores the i-th
   * vector in record i, in place; no other field of any record changes.
   */
  method GenerateEmbeddings(chunksData: array<Record>, encode: string -> Embedding)
    modifies chunksData
    ensures forall i :: 0 <= i < chunksData.Length ==>
      chunksData[i] == old(chunksData[i]).(embedding := Some(encode(old(chunksData[i]).content)))
    ensures chunksData[..] == WithEmbeddings(old(chunksData[..]), encode)
  {
    var texts := seq(chunksData.Length, i requires 0 <= i < chunksData.Length reads chunksData =>
      chunksData[i].content);
    var embeddings := seq(|texts|, i requires 0 <= i < |texts| => encode(texts[i]));
    for i := 0 to |embeddings|
      invariant forall k :: 0 <= k < i ==>
        chunksData[k] == old(chunksData[k]).(embedding := Some(encode(old(chunksData[k]).content)))
      invariant forall k :: i <= k < chunksData.Length ==> chunksData[k] == old(chunksData[k])
    {
      chunksData[i] := chunksData[i].(embedding := Some(embeddings[i]));
    }
  }

  // ---------------------------------------------------------------------
  // Batched insertion
  // ---------------------------------------------------------------------

  /** How many batches `range(0, total, BATCH_SIZE)` yields. */
  function BatchCount(total: nat): (count: nat) {
    (total + BatchSize - 1) / BatchSize
  }

  lemma BatchCountIff(total: nat, j: nat)
    ensures j < BatchCount(total) <==> j * BatchSize < total
  {
  }

  /** Batch `j`: the slice `[j * 500, min(j * 500 + 500, n))`. */
  function Batch(records: seq<Record>, j: nat): (batch: seq<Record>)
    requires j < BatchCount(|records|)
  {
    BatchCountIff(|records|, j);
    records[j * BatchSize .. Min(j * BatchSize + BatchSize, |records|)]
  }

  function Batches(records: seq<Record>): (batches: seq<seq<Record>>)
  {
    seq(BatchCount(|records|), j requires 0 <= j < BatchCount(|records|) => Batch(records, j))
  }

  /** The first `j` batches, laid end to end, are the first `min(500 j, n)` records. */
  lemma {:induction false} BatchesPrefix(records: seq<Record>, j: nat)
    requires j <= BatchCount(|records|)
    ensures Flatten(Batches(records)[..j]) == records[..Min(j * BatchSize, |records|)]
  {
    var bs := Batches(records);
    if j > 0 {
      BatchesPrefix(records, j - 1);
      BatchCountIff(|records|, j - 1);
      assert bs[..j][..j - 1] == bs[..j - 1];
      assert Flatten(bs[..j]) == Flatten(bs[..j - 1]) + bs[j - 1];
      var lo, hi := (j - 1) * BatchSize, Min(j * BatchSize, |records|);
      assert records[..lo] + records[lo..hi] == records[..hi];
    }
  }

  /**
   * The batches partition the records: laid end to end they give back the
   * whole list in order, none is empty, none holds more than 500 records,
   * and all but the last hold exactly 500.
   */
  lemma BatchesPartition(records: seq<Record>)
    ensures Flatten(Batches(records)) == records
    ensures forall j :: 0 <= j < |Batches(records)| ==> 0 < |Batches(records)[j]| <= BatchSize
    ensures forall j :: 0 <= j < |Batches(records)| - 1 ==> |Batches(records)[j]| == BatchSize
  {
    var bs := Batches(records);
    BatchesPrefix(records, |bs|);
    assert bs[..|bs|] == bs;
    BatchCountIff(|records|, |bs|);
    forall j | 0 <= j < |bs| ensures 0 < |bs[j]| <= BatchSize {
      BatchCountIff(|records|, j);
    }
    forall j | 0 <= j < |bs| - 1 ensures |bs[j]| == BatchSize {
      BatchCountIff(|records|, j + 1);
    }
  }

  /** The number of the first batch whose POST fails, or `count` when none does. */
  function FirstFailure(accepts: nat -> bool, count: nat): (f: nat)
    ensures f <= count
    ensures forall j :: 0 <= j < f ==> accepts(j)
    ensures f < count ==> !accepts(f)
  {
    if count == 0 then 0
    else
      var f := FirstFailure(accepts, count - 1);
      if f < count - 1 || !accepts(count - 1) then f else count
  }

  /** `FirstFailure` is the one batch that fails after every earlier one succeeded. */
  lemma FirstFailureAt(accepts: nat -> bool, count: nat, k: nat)
    requires k <= count
    requires forall j :: 0 <= j < k ==> accepts(j)
    requires k < count ==> !accepts(k)
    ensures FirstFailure(accepts, count) == k
  {
  }

  /**
   * When batch `f` is the first to fail (or `f` is the batch count), the
   * records inserted are those of the batches before it, and they are all
   * the records exactly when every batch was accepted.
   */
  lemma InsertedBeforeFailure(records: seq<Record>, accepts: nat -> bool, f: nat)
    requires f <= BatchCount(|records|)
    requires forall j :: 0 <= j < f ==> accepts(j)
    requires f < BatchCount(|records|) ==> !accepts(f)
    ensures FirstFailure(accepts, BatchCount(|records|)) == f
    ensures Min(f * BatchSize, |records|) == |Flatten(Batches(records)[..f])|
    ensures Min(f * BatchSize, |records|) == |records|
      <==> forall j :: 0 <= j < BatchCount(|records|) ==> accepts(j)
  {
    BatchCountIff(|records|, f);
    FirstFailureAt(accepts, BatchCount(|records|), f);
    BatchesPrefix(records, f);
  }

  datatype InsertReport = Complete(total: nat) | Partial(inserted: nat, total: nat)

  /**
   * `insert_data_to_supabase_api`: posts the batches in order and stops at
   * the first one that fails. `sent` is the list of payloads posted: every
   * batch up to and including the failing one and none after it.
   * `successCount` is the total size of the batches posted before the
   * failure, and the run is reported complete exactly when every batch
   * was accepted.
   */
  method InsertBatches(chunksData: seq<Record>, accepts: nat -> bool)
    returns (sent: seq<seq<Record>>, successCount: nat, report: InsertReport)
    ensures var f := FirstFailure(accepts, BatchCount(|chunksData|));
      |sent| == (if f < BatchCount(|chunksData|) then f + 1 else f)
    ensures |sent| <= BatchCount(|chunksData|)
    ensures sent == Batches(chunksData)[..|sent|]
    ensures successCount == |Flatten(Batches(chunksData)[..FirstFailure(accepts, BatchCount(|chunksData|))])|
    ensures successCount <= |chunksData|
    ensures successCount == |chunksData| <==> forall j :: 0 <= j < BatchCount(|chunksData|) ==> accepts(j)
    ensures report == if successCount == |chunksData| then Complete(|chunksData|)
                      else Partial(successCount, |chunksData|)
  {
    var totalRecords := |chunksData|;
    ghost var batches := Batches(chunksData);
    ghost var count := BatchCount(totalRecords);
    successCount := 0;
    sent := [];
    var i := 0;
    var failed := false;
    while i < totalRecords
      invariant i == |sent| * BatchSize
      invariant |sent| <= count
      invariant sent == batches[..|sent|]
      invariant forall j :: 0 <= j < |sent| ==> accepts(j)
      invariant successCount == Min(i, totalRecords)
    {
      BatchCountIff(totalRecords, |sent|);
      var batchData := chunksData[i .. Min(i + BatchSize, totalRecords)];
      var batchNumber := |sent|;
      assert batchData == batches[batchNumber];
      sent := sent + [batchData];
      if !accepts(batchNumber) {
        failed := true;
        break;
      }
      successCount := successCount + |batchData|;
      i := i + BatchSize;
    }
    ghost var f := if failed then |sent| - 1 else |sent|;
    if !failed {
      BatchCountIff(totalRecords, |sent|);
    }
    InsertedBeforeFailure(chunksData, accepts, f);
    if successCount == totalRecords {
      report := Complete(totalRecords);
    } else {
      report := Partial(successCount, totalRecords);
    }
  }

  // ---------------------------------------------------------------------
  // The indexing run
  // ---------------------------------------------------------------------

  /** `[f for f in listing if f.endswith(".pdf")]` */
  function PdfFiles(listing: seq<string>): (pdfs: seq<string>)
  {
    Filter(listing, f => EndsWith(f, ".pdf"))
  }

  /** The embedded records of one file; a file with no extracted text contributes none. */
  function DocumentRecords(
    filename: string, extract: string -> string,
    split: string -> seq<string>, encode: string -> Embedding): (records: seq<Record>)
  {
    var text := extract(filename);
    if text == "" then [] else WithEmbeddings(ChunkRecords(split(text), filename), encode)
  }

  /** The records of the given files, file after file. */
  function Corpus(
    files: seq<string>, extract: string -> string,
    split: string -> seq<string>, encode: string -> Embedding): (records: seq<Record>)
  {
    if files == [] then []
    else Corpus(files[..|files| - 1], extract, split, encode)
         + DocumentRecords(files[|files| - 1], extract, split, encode)
  }

  /**
   * Every record of the corpus comes from one of the files, whose extracted
   * text is non-empty and has the record's content among its chunks; it is
   * tagged with its file's category and carries the embedding of its own
   * content.
   */
  lemma {:induction false} CorpusProvenance(
    files: seq<string>, extract: string -> string,
    split: string -> seq<string>, encode: string -> Embedding)
    ensures forall r :: r in Corpus(files, extract, split, encode) ==>
      && r.source in files
      && extract(r.source) != ""
      && r.content in split(extract(r.source))
      && r.metadata == Metadata(Category(r.source), Tema)
      && r.embedding == Some(encode(r.content))
  {
    if files != [] {
      var front := files[..|files| - 1];
      var last := files[|files| - 1];
      CorpusProvenance(front, extract, split, encode);
      var doc := DocumentRecords(last, extract, split, encode);
      forall r | r in doc
        ensures r.source == last && extract(last) != "" && r.content in split(extract(last))
      {
        var k :| 0 <= k < |doc| && doc[k] == r;
      }
    }
  }

  /** Only files whose names end in `.pdf` contribute records. */
  lemma OnlyPdfFiles(
    listing: seq<string>, extract: string -> string,
    split: string -> seq<string>, encode: string -> Embedding)
    ensures forall r :: r in Corpus(PdfFiles(listing), extract, split, encode) ==>
      r.source in listing && EndsWith(r.source, ".pdf")
  {
    var pdfs := PdfFiles(listing);
    CorpusProvenance(pdfs, extract, split, encode);
    var idx := KeptIndices(listing, f => EndsWith(f, ".pdf"));
    forall r | r in Corpus(pdfs, extract, split, encode)
      ensures r.source in listing && EndsWith(r.source, ".pdf")
    {
      var k :| 0 <= k < |pdfs| && pdfs[k] == r.source;
      assert pdfs[k] == listing[idx[k]];
    }
  }

  datatype IndexOutcome =
    | NoPdfFiles
    | NothingToInsert
    | Inserted(records: seq<Record>, sent: seq<seq<Record>>, successCount: nat, report: InsertReport)

  /**
   * The indexing run over a directory listing (main, from the `.pdf` filter
   * on): stops early when there is no PDF, skips files with no extracted
   * text, and inserts the accumulated records only when there are some.
   */
  method IndexCorpus(
    listing: seq<string>, extract: string -> string, split: string -> seq<string>,
    encode: string -> Embedding, accepts: nat -> bool)
    returns (outcome: IndexOutcome)
    ensures outcome == NoPdfFiles <==> PdfFiles(listing) == []
    ensures outcome == NothingToInsert
      <==> PdfFiles(listing) != [] && Corpus(PdfFiles(listing), extract, split, encode) == []
    ensures outcome.Inserted? ==>
      && outcome.records == Corpus(PdfFiles(listing), extract, split, encode)
      && outcome.records != []
      && |outcome.sent| <= BatchCount(|outcome.records|)
      && outcome.sent == Batches(outcome.records)[..|outcome.sent|]
      && outcome.successCount
         == |Flatten(Batches(outcome.records)[..FirstFailure(accepts, BatchCount(|outcome.records|))])|
      && (var f := FirstFailure(accepts, BatchCount(|outcome.records|));
          |outcome.sent| == (if f < BatchCount(|outcome.records|) then f + 1 else f))
      && (outcome.successCount == |outcome.records|
          <==> forall j :: 0 <= j < BatchCount(|outcome.records|) ==> accepts(j))
      && outcome.report == if outcome.successCount == |outcome.records| then Complete(|outcome.records|)
                           else Partial(outcome.successCount, |outcome.records|)
  {
    var pdfFiles := PdfFiles(listing);
    if pdfFiles == [] {
      return NoPdfFiles;
    }
    var totalChunksData: seq<Record> := [];
    for k := 0 to |pdfFiles|
      invariant totalChunksData == Corpus(pdfFiles[..k], extract, split, encode)
    {
      var filename := pdfFiles[k];
      var text := extract(filename);
      assert pdfFiles[..k + 1][..k] == pdfFiles[..k];
      if text != "" {
        var chunks := ChunkText(text, filename, split);
        assert chunks == ChunkRecords(split(text), filename);
        var records := new Record[|chunks|](i requires 0 <= i < |chunks| => chunks[i]);
        assert records[..] == chunks;
        GenerateEmbeddings(records, encode);
        totalChunksData := totalChunksData + records[..];
      }
    }
    assert pdfFiles[..|pdfFiles|] == pdfFiles;
    if totalChunksData == [] {
      return NothingToInsert;
    }
    var sent, successCount, report := InsertBatches(totalChunksData, accepts);
    outcome := Inserted(totalChunksData, sent, successCount, report);
  }
}
