/** The ingestion orchestrator `DATAINGESTION_PIPELINE.data_ingestion`:
    upper-case the caller's inputs, then load, preprocess, write the
    document store and write the vector index, in that order, with no
    compensation when a later stage fails. */
module Ingestion {
  import opened Common
  import opened Preprocessing
  import opened MongoDb
  import opened VectorIndex

  /** `[tag.upper() for tag in tags] if tags else None`. */
  function UpperTags(tags: Option<seq<string>>): (r: Option<seq<string>>)
    ensures r.None? <==> tags.None? || tags.value == []
    ensures r.Some? ==> |r.value| == |tags.value|
    ensures r.Some? ==> forall i :: 0 <= i < |r.value| ==> r.value[i] == Upper(tags.value[i])
  {
    match tags
    case None => None
    case Some(ts) =>
      if ts == [] then None else Some(seq(|ts|, i requires 0 <= i < |ts| => Upper(ts[i])))
  }

  /** The classification every stage sees: the caller's arguments with
      board, language, class, subject, author and each tag upper-cased. */
  function Normalized(board: string, language: string, cls: string, subject: string,
                      subjectPart: int, author: string, tags: Option<seq<string>>): Classification
  {
    Classification(Upper(board), Upper(language), Upper(cls), Upper(subject), subjectPart,
                   Upper(author), UpperTags(tags))
  }

  /** Normalising twice is normalising once, and no lower-case letter is
      left in any string field or tag. */
  lemma NormalizedIsUpperCase(board: string, language: string, cls: string, subject: string,
                              subjectPart: int, author: string, tags: Option<seq<string>>)
    ensures var c := Normalized(board, language, cls, subject, subjectPart, author, tags);
      && Normalized(c.board, c.language, c.cls, c.subject, c.subjectPart, c.author, c.tags) == c
      && (forall i :: 0 <= i < |c.board| ==> !IsLower(c.board[i]))
      && (forall i :: 0 <= i < |c.language| ==> !IsLower(c.language[i]))
      && (forall i :: 0 <= i < |c.cls| ==> !IsLower(c.cls[i]))
      && (forall i :: 0 <= i < |c.subject| ==> !IsLower(c.subject[i]))
      && (forall i :: 0 <= i < |c.author| ==> !IsLower(c.author[i]))
      && (c.tags.Some? ==> forall t, i :: t in c.tags.value && 0 <= i < |t| ==> !IsLower(t[i]))
  {
    var c := Normalized(board, language, cls, subject, subjectPart, author, tags);
    UpperIdempotent(board);
    UpperIdempotent(language);
    UpperIdempotent(cls);
    UpperIdempotent(subject);
    UpperIdempotent(author);
    if c.tags.Some? {
      var ts := c.tags.value;
      forall i | 0 <= i < |ts|
        ensures Upper(ts[i]) == ts[i]
      {
        UpperIdempotent(tags.value[i]);
      }
      var again := UpperTags(c.tags);
      assert again.Some? && |again.value| == |ts|;
      assert forall i :: 0 <= i < |ts| ==> again.value[i] == ts[i];
      assert again.value == ts;
    }
  }

  /** The name of the attribute looked up at line 49, which
      `GETEMBEDDING` does not define. */
  const MissingEmbeddingAttribute := "get_embeddings_from_hf"

  class IngestionPipeline {
    /** `DOCUMENT_LOADER.load_pdf`: the pages of a file, or None when it raises. */
    const loader: string -> Option<seq<Page>>
    const mongo: MongoOperation
    const vectorStore: VectorStore
    /** The embedding function handed to the vector-store writer. */
    const embedder: Embedder

    constructor (loader: string -> Option<seq<Page>>, mongo: MongoOperation,
                 vectorStore: VectorStore, embedder: Embedder)
      ensures this.loader == loader && this.mongo == mongo
      ensures this.vectorStore == vectorStore && this.embedder == embedder
    {
      this.loader := loader;
      this.mongo := mongo;
      this.vectorStore := vectorStore;
      this.embedder := embedder;
    }

    /** `data_ingestion`, as intended: the vector stage receives the
        injected embedding function. A load failure is raised before any
        write. Otherwise the same preprocessed list goes to the document
        store (under the upper-cased collection) and then to the vector
        index (under the namespace equal to that collection), whether or
        not the collection existed; the vector stage's outcome is the
        call's outcome, and an embedding failure there leaves the document
        store written. */
    method DataIngestion(filePath: string, collection: string, board: string, language: string,
                         cls: string, subject: string, subjectPart: int, author: string,
                         tags: Option<seq<string>>, recordClock: Clock, vectorClock: Clock)
      returns (outcome: Outcome)
      modifies mongo`collections, mongo`insertCalls, vectorStore`upserts, embedder`calls
      ensures loader(filePath).None? ==>
        && outcome == Fail(LoadError(filePath))
        && unchanged(mongo) && unchanged(vectorStore) && unchanged(embedder)
      ensures loader(filePath).Some? ==>
        var c := Normalized(board, language, cls, subject, subjectPart, author, tags);
        var records := Preprocessed(loader(filePath).value, c, recordClock);
        var target := Upper(collection);
        var run := VectorRun(vectorStore.indexName in vectorStore.indexes, vectorStore.indexName,
                             records, target, embedder.model, vectorClock);
        && mongo.collections == AfterUpload(old(mongo.collections), target, records)
        && mongo.insertCalls == old(mongo.insertCalls) + UploadInserts(old(mongo.collections), target, records)
        && embedder.calls == old(embedder.calls) + run.calls
        && vectorStore.upserts == old(vectorStore.upserts) + run.upserts
        && outcome == run.outcome
    {
      var target := Upper(collection);
      var c := Normalized(board, language, cls, subject, subjectPart, author, tags);

      var documents := loader(filePath);
      if documents.None? {
        return Fail(LoadError(filePath));
      }
      var records := PreprocessData(documents.value, c, recordClock);
      mongo.UploadData(records, target);
      var namespace := target;
      outcome := vectorStore.StoreVectors(records, namespace, embedder, vectorClock);
    }

    /** `data_ingestion` as written: evaluating the `func=` argument at
        line 49 looks up an attribute `GETEMBEDDING` lacks, which raises
        after the document-store write, so the vector stage never runs. */
    method DataIngestionAsWritten(filePath: string, collection: string, board: string, language: string,
                                  cls: string, subject: string, subjectPart: int, author: string,
                                  tags: Option<seq<string>>, recordClock: Clock)
      returns (outcome: Outcome)
      modifies mongo`collections, mongo`insertCalls
      ensures loader(filePath).None? ==>
        && outcome == Fail(LoadError(filePath))
        && unchanged(mongo)
      ensures loader(filePath).Some? ==>
        var c := Normalized(board, language, cls, subject, subjectPart, author, tags);
        var records := Preprocessed(loader(filePath).value, c, recordClock);
        var target := Upper(collection);
        && mongo.collections == AfterUpload(old(mongo.collections), target, records)
        && mongo.insertCalls == old(mongo.insertCalls) + UploadInserts(old(mongo.collections), target, records)
        && outcome == Fail(AttributeError(MissingEmbeddingAttribute))
    {
      var target := Upper(collection);
      var c := Normalized(board, language, cls, subject, subjectPart, author, tags);

      var documents := loader(filePath);
      if documents.None? {
        return Fail(LoadError(filePath));
      }
      var records := PreprocessData(documents.value, c, recordClock);
      mongo.UploadData(records, target);
      return Fail(AttributeError(MissingEmbeddingAttribute));
    }
  }

  /** Line 49 as written, on a one-page file with the collection and the
      index both present and an embedding function that never fails: the
      written version raises and upserts nothing, while the intended one
      returns normally with one upsert. */
  method Line49Counterexample()
    returns (asWritten: Outcome, intended: Outcome, asWrittenUpserts: nat, intendedUpserts: nat)
    ensures asWritten == Fail(AttributeError("get_embeddings_from_hf"))
    ensures asWrittenUpserts == 0
    ensures intended == Pass
    ensures intendedUpserts == 1
  {
    asWritten, asWrittenUpserts := ChapterAsWritten();
    intended, intendedUpserts := ChapterAsIntended();
  }

  /** The chapter through the pipeline as written. */
  method ChapterAsWritten() returns (outcome: Outcome, upsertCount: nat)
    ensures outcome == Fail(AttributeError("get_embeddings_from_hf"))
    ensures upsertCount == 0
  {
    var mongo := new MongoOperation("k12", map["MATH_BOOK" := []]);
    var index := new VectorStore("k12-index", {"k12-index"});
    var embedder := new Embedder(ConstantModel);
    var pipeline := new IngestionPipeline(ChapterLoader, mongo, index, embedder);
    outcome := pipeline.DataIngestionAsWritten("book.pdf", "math_book", "cbse", "english", "5",
                                               "math", 1, "Admin", None, FixedClock);
    upsertCount := |index.upserts|;
  }

  /** The same chapter through the intended pipeline. */
  method ChapterAsIntended() returns (outcome: Outcome, upsertCount: nat)
    ensures outcome == Pass
    ensures upsertCount == 1
  {
    var mongo := new MongoOperation("k12", map["MATH_BOOK" := []]);
    var index := new VectorStore("k12-index", {"k12-index"});
    var embedder := new Embedder(ConstantModel);
    var pipeline := new IngestionPipeline(ChapterLoader, mongo, index, embedder);
    outcome := pipeline.DataIngestion("book.pdf", "math_book", "cbse", "english", "5",
                                      "math", 1, "Admin", None, FixedClock, FixedClock);
    upsertCount := |index.upserts|;
    ChapterRun();
  }

  /** A loader that reads one page of text from any path. */
  function ChapterLoader(path: string): Option<seq<Page>>
  {
    Some([Page("Chapter 1", PageMeta(None, None, Some(0), Some(1)))])
  }

  /** With the index present and every embedding succeeding, the one-page
      chapter is embedded and upserted once under "MATH_BOOK". */
  lemma ChapterRun()
    ensures Upper("math_book") == "MATH_BOOK"
    ensures var records := Preprocessed(ChapterLoader("book.pdf").value,
                                        Normalized("cbse", "english", "5", "math", 1, "Admin", None), FixedClock);
      var run := VectorRun(true, "k12-index", records, Upper("math_book"), ConstantModel, FixedClock);
      run.outcome == Pass && |run.upserts| == 1
  {
    assert Upper("math_book") == "MATH_BOOK";
    var records := Preprocessed(ChapterLoader("book.pdf").value,
                                Normalized("cbse", "english", "5", "math", 1, "Admin", None), FixedClock);
    RunWhenAllEmbed("k12-index", records, "MATH_BOOK", ConstantModel, FixedClock);
  }

  // ---------------------------------------------------------------------------
  // The three-page scenario: board "CBSE", language "ENGLISH", class "5",
  // subject "MATH", part 1, collection "MATH_BOOK".
  // ---------------------------------------------------------------------------

  function BookPage(i: int): Page
  {
    Page("text", PageMeta(Some("book.pdf"), Some("book.pdf"), Some(i), Some(3)))
  }

  const BookPages: seq<Page> := [BookPage(0), BookPage(1), BookPage(2)]

  function BookLoader(path: string): Option<seq<Page>>
  {
    Some(BookPages)
  }

  function ConstantModel(text: string): Option<Embedding>
  {
    Some([0.25])
  }

  function FixedClock(i: nat): Stamp
  {
    Stamp("2024-01-01", "10:00:00")
  }

  function BookRecords(): seq<Record>
  {
    Preprocessed(BookPages, Normalized("CBSE", "ENGLISH", "5", "MATH", 1, "Admin", None), FixedClock)
  }

  lemma ScenarioIdPrefix(d: Record)
    requires d.board == "CBSE" && d.language == "ENGLISH" && d.cls == "5" && d.subject == "MATH"
    requires d.subjectPart == 1
    ensures IdPrefix(d) == "CBSE_ENGLISH_5_MATH_1_"
  {
    assert IntToString(1) == "1";
  }

  /** The collection name is already upper case, and the upload appends
      the book's records to its empty collection. */
  lemma BookUpload()
    ensures Upper("MATH_BOOK") == "MATH_BOOK"
    ensures AfterUpload(map["MATH_BOOK" := []], "MATH_BOOK", BookRecords())["MATH_BOOK"] == BookRecords()
  {
    UpperKeepsUpperCase("MATH_BOOK");
    assert [] + BookRecords() == BookRecords();
  }

  /** The book gives three records with pages 0, 1, 2, and with the index
      present one upsert of three vectors under "MATH_BOOK" whose ids are
      distinct and share the prefix "CBSE_ENGLISH_5_MATH_1_". */
  lemma BookRun()
    ensures var records := BookRecords();
      && |records| == 3 && records[0].page == 0 && records[1].page == 1 && records[2].page == 2
    ensures var run := VectorRun(true, "k12-index", BookRecords(), "MATH_BOOK", ConstantModel, FixedClock);
      && run.outcome == Pass
      && |run.upserts| == 1 && run.upserts[0].namespace == "MATH_BOOK" && |run.upserts[0].vectors| == 3
      && (forall i :: 0 <= i < 3 ==> StartsWith(run.upserts[0].vectors[i].id, "CBSE_ENGLISH_5_MATH_1_"))
      && (forall i, j :: 0 <= i < j < 3 ==> run.upserts[0].vectors[i].id != run.upserts[0].vectors[j].id)
  {
    var c := Normalized("CBSE", "ENGLISH", "5", "MATH", 1, "Admin", None);
    UpperKeepsUpperCase("CBSE");
    UpperKeepsUpperCase("ENGLISH");
    UpperKeepsUpperCase("5");
    UpperKeepsUpperCase("MATH");
    var records := BookRecords();
    PreprocessedRecords(BookPages, c, FixedClock);
    RunWhenAllEmbed("k12-index", records, "MATH_BOOK", ConstantModel, FixedClock);
    BatchIdsDistinct("k12-index", records, "MATH_BOOK", ConstantModel, FixedClock);
    ScenarioIdPrefix(records[0]);
  }

  /** The three-page book ingested into "MATH_BOOK" with the collection
      provisioned: three stored documents with pages 0, 1, 2. With the
      index provisioned too, one upsert of three vectors with distinct ids
      sharing the prefix "CBSE_ENGLISH_5_MATH_1_"; with the index missing,
      no upsert. The call returns normally either way. */
  method ThreePageScenario(indexProvisioned: bool)
    returns (outcome: Outcome, stored: seq<Record>, upserts: seq<Upsert>)
    ensures outcome == Pass
    ensures |stored| == 3 && stored[0].page == 0 && stored[1].page == 1 && stored[2].page == 2
    ensures indexProvisioned ==>
      && |upserts| == 1 && upserts[0].namespace == "MATH_BOOK" && |upserts[0].vectors| == 3
      && (forall i :: 0 <= i < 3 ==> StartsWith(upserts[0].vectors[i].id, "CBSE_ENGLISH_5_MATH_1_"))
      && (forall i, j :: 0 <= i < j < 3 ==> upserts[0].vectors[i].id != upserts[0].vectors[j].id)
    ensures !indexProvisioned ==> upserts == []
  {
    var mongo := new MongoOperation("k12", map["MATH_BOOK" := []]);
    var index := new VectorStore("k12-index", if indexProvisioned then {"k12-index"} else {});
    var embedder := new Embedder(ConstantModel);
    var pipeline := new IngestionPipeline(BookLoader, mongo, index, embedder);
    outcome := pipeline.DataIngestion("book.pdf", "MATH_BOOK", "CBSE", "ENGLISH", "5", "MATH", 1,
                                      "Admin", None, FixedClock, FixedClock);
    stored := mongo.collections["MATH_BOOK"];
    upserts := index.upserts;
    BookUpload();
    BookRun();
  }
}
