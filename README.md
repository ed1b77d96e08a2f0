# k12bot PDF ingestion pipeline — Dafny model

k12bot ingests a textbook PDF in four stages, driven by
`DATAINGESTION_PIPELINE.data_ingestion`:

1. It upper-cases the caller's collection, board, language, class, subject,
   author and tags.
2. It loads the PDF into pages.
3. It turns every page into a structured record (`preprocess_data`). The
   page text is normalised by `clean_text`, the classification is
   attached, page metadata is copied with defaults and a date/time stamp
   is added.
4. It appends the whole batch to a MongoDB collection (`upload_data`),
   but only when that collection already exists (`collection_exists`).
   As intended, it then embeds every record's text and upserts one vector
   per record into a Pinecone index under a namespace equal to the
   collection name (`vector_store`), but only when the index exists. As
   written, line 49 of ingest_data.py raises before this stage is reached
   (see "## Findings").

Every stage logs an exception and re-raises it. Nothing is rolled back.

The model has five modules:

- `Common` (common.dfy): options, outcomes and errors, clock readings, the
  whitespace class, ASCII upper-casing and the decimal rendering of
  integers.
- `Preprocessing` (preprocessing.dfy): `clean_text` as pure functions with
  its properties (canonical output, idempotence, nothing but whitespace
  lost, empty exactly on blank input, one space per run between words,
  whitespace at either end dropped). `preprocess_data` is a method with
  a loop, proved against the list function `Preprocessed`.
- `MongoDb` (mongo.dfy): class `MongoOperation`. The database's
  collections are a `map` field and the `insert_many` calls are a log
  field. `CollectionExists` and `UploadData` are specified by
  `AfterUpload` and `UploadInserts`.
- `VectorIndex` (vector_store.dfy):
  - class `Embedder`: the injected embedding function, with a call log.
  - the metadata, id and vector-entry functions.
  - `VectorRun`: one call of the writer, as a value.
  - class `VectorStore`: the set of existing indexes and an upsert log.
    Its loop method `StoreVectors` is proved against `VectorRun`.
- `Ingestion` (ingest.dfy): class `IngestionPipeline`, which runs the
  stages in order. It has two versions: `DataIngestion` as intended and
  `DataIngestionAsWritten` as the source stands (see Findings). The file
  also holds a worked three-page scenario.

Outside collaborators are parameters:

- the PDF loader is a function from a path to `Option<seq<Page>>`
  (None = it raises)
- the embedding function is `string -> Option<Embedding>` (None = it raises)
- the clock is a function from the record's position to a formatted
  reading

## Model

| member | source | states |
|---|---|---|
| Common.Upper | data_ingestion/ingest_data.py:24-29 | `str.upper()`: the same length, no lower-case letter is left, and every character that is not a lower-case letter is kept in place |
| Common.UpperIdempotent | data_ingestion/ingest_data.py:24-30 | upper-casing an already upper-cased string changes nothing |
| Common.UpperKeepsUpperCase | data_ingestion/ingest_data.py:24-30 | a string with no lower-case letter is its own upper-case form |
| Common.NatToString | data_ingestion/vector_store/vector_store.py:78 | `str(i)` of a position: at least one character, all decimal digits, at least two from 10 on |
| Common.NatToStringInjective | data_ingestion/vector_store/vector_store.py:78 | different positions are written as different digit strings |
| Preprocessing.LeadingSpaces | data_ingestion/data_processing/preprocessing.py:17 | what `strip()` removes at the front: a whitespace prefix, followed by a non-whitespace character or the end |
| Preprocessing.TrailingSpaces | data_ingestion/data_processing/preprocessing.py:17 | what `strip()` removes at the back: a whitespace suffix, preceded by a non-whitespace character or the start |
| Preprocessing.SqueezeKeepsNonSpace | data_ingestion/data_processing/preprocessing.py:15-16 | replacing runs of whitespace by one space keeps every other character, in order |
| Preprocessing.SqueezeSpacesSingleSpaced | data_ingestion/data_processing/preprocessing.py:16 | after `re.sub(r'\s+', ' ', …)` every whitespace character is a single plain space |
| Preprocessing.SqueezeAppend | data_ingestion/data_processing/preprocessing.py:15-16 | either substitution works piecewise: on `x + y` it is the substitution of `x`, then that of `y`, continuing a run only if `x` ended in one |
| Preprocessing.SqueezeRun | data_ingestion/data_processing/preprocessing.py:15-16 | a whole run of matching characters becomes exactly one space, or nothing when it continues a run already replaced |
| Preprocessing.SqueezeRunBecomesOneSpace | data_ingestion/data_processing/preprocessing.py:16 | a whitespace run between two non-whitespace characters becomes exactly one space, and the text on either side is substituted on its own |
| Preprocessing.StripWordBreak | data_ingestion/data_processing/preprocessing.py:17 | `strip()` of two words joined by one space strips each side on its own and keeps the space |
| Preprocessing.CleanTextCanonical | data_ingestion/data_processing/preprocessing.py:12-17 | the output of `clean_text` has no line break or tab, no two adjacent spaces, and no whitespace at either end |
| Preprocessing.CleanTextKeepsNonSpace | data_ingestion/data_processing/preprocessing.py:12-17 | `clean_text` keeps every non-whitespace character of its input, in order |
| Preprocessing.CleanTextEmptyIff | data_ingestion/data_processing/preprocessing.py:12-17 | `clean_text` returns "" if and only if the input is empty or all whitespace |
| Preprocessing.CleanTextKeepsCanonical | data_ingestion/data_processing/preprocessing.py:12-17 | a text already in canonical form is returned unchanged |
| Preprocessing.CleanTextIdempotent | data_ingestion/data_processing/preprocessing.py:12-17 | cleaning a cleaned text changes nothing |
| Preprocessing.CleanTextWordBreak | data_ingestion/data_processing/preprocessing.py:12-17 | for any texts `a` ending and `b` starting with a non-whitespace character and any non-empty whitespace run `w`: `clean_text(a + w + b) == clean_text(a) + " " + clean_text(b)`, so each run between words becomes exactly one space |
| Preprocessing.StripDropsLeading | data_ingestion/data_processing/preprocessing.py:17 | `strip()` of any text with whitespace put before it equals `strip()` of the text |
| Preprocessing.StripDropsTrailing | data_ingestion/data_processing/preprocessing.py:17 | `strip()` of any text with whitespace put after it equals `strip()` of the text |
| Preprocessing.CleanTextDropsLeadingSpace | data_ingestion/data_processing/preprocessing.py:12-17 | for any text `s` and any all-whitespace `w`: `clean_text(w + s) == clean_text(s)`, so leading whitespace leaves no trace, not even a space before the first word |
| Preprocessing.CleanTextDropsTrailingSpace | data_ingestion/data_processing/preprocessing.py:12-17 | for any text `s` and any all-whitespace `w`: `clean_text(s + w) == clean_text(s)`, so trailing whitespace leaves no trace after the last word |
| Preprocessing.PreprocessedLength | data_ingestion/data_processing/preprocessing.py:41-65 | the returned list has exactly one record per page |
| Preprocessing.PreprocessedAt | data_ingestion/data_processing/preprocessing.py:41-65 | the list has one record per page, and record i is built from page i at clock reading i |
| Preprocessing.PreprocessedRecords | data_ingestion/data_processing/preprocessing.py:42-62 | one record per page, in order. Each record has the caller's classification, the cleaned text, source/file_path defaulting to '' and page/total_pages defaulting to 0, and the date and time of its clock reading |
| Preprocessing.PreprocessedContentCanonical | data_ingestion/data_processing/preprocessing.py:44-59 | every stored content field is in canonical form |
| Preprocessing.PreprocessData | data_ingestion/data_processing/preprocessing.py:40-68 | the loop returns exactly the list `Preprocessed` describes |
| MongoDb.UploadToMissingCollection | data_ingestion/db_operation/mongo.py:60-62 | a missing collection is neither written nor created, and no insert is issued |
| MongoDb.UploadToExistingCollection | data_ingestion/db_operation/mongo.py:64-68 | an existing collection gets the whole batch appended in order with one insert. Other collections are untouched and none is added |
| MongoDb.UploadTwiceKeepsBothCopies | data_ingestion/db_operation/mongo.py:68 | there is no deduplication: the same batch uploaded twice is stored twice |
| MongoDb.MongoOperation.CollectionExists | data_ingestion/db_operation/mongo.py:93-101 | true if and only if the name is among the database's collection names |
| MongoDb.MongoOperation.UploadData | data_ingestion/db_operation/mongo.py:59-69 | the new collections and insert log are exactly `AfterUpload` and `UploadInserts` of the old state |
| VectorIndex.Embedder.Embed | data_ingestion/vector_store/vector_store.py:81 | one awaited call: the text is logged and the function's result is returned |
| VectorIndex.MetadataFields | data_ingestion/vector_store/vector_store.py:62-77 | the twelve copied keys plus date and time. A truthy field keeps its value, a falsy one becomes "None", and date/time come from the writer's clock |
| VectorIndex.MetadataNoneIff | data_ingestion/vector_store/vector_store.py:63-74 | a field reads "None" if and only if it was falsy or already the text "None", so a 0 page or part is lost |
| VectorIndex.IdShape | data_ingestion/vector_store/vector_store.py:78 | an id is the classification prefix, then the position, "_" and the timestamp |
| VectorIndex.IdsDistinct | data_ingestion/vector_store/vector_store.py:78 | records with the same classification at different positions get different ids, whatever the clock says |
| VectorIndex.FirstFailure | data_ingestion/vector_store/vector_store.py:61-81 | the position of the first record whose embedding raises: every earlier one succeeds |
| VectorIndex.VectorsLength | data_ingestion/vector_store/vector_store.py:60-88 | when every embedding succeeds, the vector list has exactly one entry per record |
| VectorIndex.VectorsAt | data_ingestion/vector_store/vector_store.py:60-88 | the accumulated list has one entry per record, and entry i is built from record i at clock reading i |
| VectorIndex.MissingIndexNoWrites | data_ingestion/vector_store/vector_store.py:53-55 | a missing index: the call returns normally with no embedding call and no upsert |
| VectorIndex.RunWhenAllEmbed | data_ingestion/vector_store/vector_store.py:58-91 | all embeddings succeed: each content is embedded once, in order, and one upsert under the namespace holds entry i with record i's id, embedding and metadata |
| VectorIndex.RunWhenEmbeddingFails | data_ingestion/vector_store/vector_store.py:81-96 | the first failing embedding stops the loop, so nothing is upserted and that error is re-raised |
| VectorIndex.AtMostOneUpsert | data_ingestion/vector_store/vector_store.py:53-96 | at most one upsert. There is exactly one if and only if the index exists and every embedding succeeds, and the call passes if and only if the index is missing or every embedding succeeds |
| VectorIndex.BatchIdsDistinct | data_ingestion/vector_store/vector_store.py:61-91 | in one batch with one classification, the upserted ids are pairwise distinct and share the classification prefix |
| VectorIndex.VectorStore.StoreVectors | data_ingestion/vector_store/vector_store.py:51-96 | the loop's embedding calls, upserts and outcome are exactly those of `VectorRun` |
| Ingestion.UpperTags | data_ingestion/ingest_data.py:30 | None if and only if the tags are None or empty; otherwise the same length, with each tag upper-cased |
| Ingestion.NormalizedIsUpperCase | data_ingestion/ingest_data.py:24-30 | normalising twice equals normalising once, and no lower-case letter is left in board, language, class, subject, author or any tag |
| Ingestion.IngestionPipeline.DataIngestion | data_ingestion/ingest_data.py:21-57 | a load failure is re-raised with nothing written. Otherwise the preprocessed list is appended to the upper-cased collection (if it exists), then stored in the vector index under that name as namespace. The outcome is the vector stage's, and the Mongo write stays when it fails |
| Ingestion.IngestionPipeline.DataIngestionAsWritten | data_ingestion/ingest_data.py:43-49 | as written, every loadable file is written to Mongo when the upper-cased collection exists, and the call then raises AttributeError("get_embeddings_from_hf") |
| Ingestion.Line49Counterexample | data_ingestion/ingest_data.py:47-50 | one page, with collection and index present: the code as written fails with no upsert, the intended code passes with one upsert |
| Ingestion.ChapterAsWritten | data_ingestion/ingest_data.py:43-49 | a one-page chapter into an existing collection with the index present: the code as written raises AttributeError("get_embeddings_from_hf") and upserts nothing |
| Ingestion.ChapterAsIntended | data_ingestion/ingest_data.py:43-50 | the same chapter through the intended pipeline: the call passes with exactly one upsert |
| Ingestion.ChapterRun | data_ingestion/ingest_data.py:24-50 | "math_book" upper-cases to "MATH_BOOK", and the chapter's vector stage passes with one upsert |
| Ingestion.BookUpload | data_ingestion/db_operation/mongo.py:60-68 | "MATH_BOOK" is its own upper-case form, and the book's records are appended to the empty collection of that name |
| Ingestion.ScenarioIdPrefix | data_ingestion/vector_store/vector_store.py:78 | the id prefix of a CBSE/ENGLISH/5/MATH part-1 record is "CBSE_ENGLISH_5_MATH_1_" |
| Ingestion.BookRun | data_ingestion/ingest_data.py:37-50 | a three-page book gives records for pages 0, 1, 2 and one upsert of three vectors with distinct, prefixed ids |
| Ingestion.ThreePageScenario | data_ingestion/ingest_data.py:21-57 | end to end: three documents stored in MATH_BOOK. With the index present there is one upsert of three vectors with distinct ids; without it, none. The call passes either way |

## Left out

- Logging (`log` in every stage) is a no-op here. The log file and its messages are not modelled.
- The PDF loader is a function parameter. PDF parsing and the swapped arguments of the error log at data_ingestion/data_loading/load.py:34 are not modelled.
- Network and database failures are not modelled: connecting, listing collections, `insert_many`, `has_index` and `upsert`. Only load failures and embedding failures raise.
- MongoDb.MongoOperation.UploadData: an empty batch into an existing collection is recorded as one insert of nothing. pymongo refuses `insert_many([])`, so for a file with no pages the source raises at data_ingestion/db_operation/mongo.py:68, and `data_ingestion` re-raises before the vector stage. The model instead goes on to the vector stage, which then upserts an empty list.
- `insert_many` adding an `_id` key to each inserted dictionary is not modelled. Stored documents are the records as built.
- Common.Upper: only a-z are upper-cased, so Python's Unicode case mapping is not modelled.
- Preprocessing.CleanText: whitespace is the six ASCII whitespace characters. The other Unicode characters that `\s` and `strip()` accept are not modelled.
- Preprocessing.PreprocessData: the clock is read once per record. The source reads `now()` separately for the date and the time, and the writer reads it again for the id, so a second boundary can make them disagree. Date and time formatting is not modelled either: a reading is already formatted text.
- VectorIndex.VectorStore.StoreVectors: the embedding's numbers are opaque, and `asyncio.run` is modelled as one synchronous call.
- Python's dynamic typing is not modelled. `doc.metadata.get` returning a present-but-None value, and metadata values of other types, are outside the typed records.
- The author default "Admin" and the tags default None are not default parameters: callers pass them.
- Configuration reading (`read_params`, environment variables), `MONGODB_OPERATION.connect`, utils/settings.py, template.py and setup.py are not part of this model.
- The intended pipeline (`Ingestion.IngestionPipeline.DataIngestion`) passes the injected embedding function to the vector stage, as the `func` parameter of `vector_store` is documented at data_ingestion/vector_store/vector_store.py:46 ("a function that takes a document's content as input and returns its embeddings"). The code as written raises at line 49 instead. It is modelled separately; see Findings.

## Findings

| source | as written | input that shows it | evidently intended | confidence | as-written member | corrected member |
|---|---|---|---|---|---|---|
| data_ingestion/ingest_data.py:49 | the `func=` argument calls `self.embeddings.get_embeddings_from_hf()`. `GETEMBEDDING` (utils/settings.py:93-120) defines only `load_embeddings_from_hf`, so this raises AttributeError after the Mongo write, and the vector stage never runs | any file that loads, e.g. one page into an existing collection "MATH_BOOK" with the index present | hand the embedding coroutine (`self.embeddings.load_embeddings_from_hf`) to `vector_store`, so the records are embedded and upserted | high, not executed | Ingestion.IngestionPipeline.DataIngestionAsWritten, Ingestion.ChapterAsWritten, Ingestion.Line49Counterexample | Ingestion.IngestionPipeline.DataIngestion |
