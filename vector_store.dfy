/** The vector-store writer `VECTOR_STORE.vector_store` and the embedding
    function it is given. */
module VectorIndex {
  import opened Common
  import opened Preprocessing

  /** An embedding vector; its numbers are never inspected here. */
  type Embedding = seq<real>

  /** The injected embedding function. `model` gives the result of one call
      (None when the call raises); `calls` records every text it was called
      on, in order. */
  class Embedder {
    const model: string -> Option<Embedding>
    var calls: seq<string>

    constructor (model: string -> Option<Embedding>)
      ensures this.model == model && calls == []
    {
      this.model := model;
      calls := [];
    }

    /** `asyncio.run(func(text))`: one call, awaited to completion. */
    method Embed(text: string) returns (r: Option<Embedding>)
      modifies this`calls
      ensures calls == old(calls) + [text]
      ensures r == model(text)
    {
      calls := calls + [text];
      r := model(text);
    }
  }

  // ---------------------------------------------------------------------------
  // Metadata
  // ---------------------------------------------------------------------------

  /** A value of the metadata dictionary. */
  datatype MetaValue = Text(text: string) | Number(number: int) | TextList(items: seq<string>) | Null

  /** Python truthiness: "", 0, [] and None are false. */
  predicate Truthy(v: MetaValue)
  {
    match v
    case Text(t) => t != ""
    case Number(n) => n != 0
    case TextList(l) => l != []
    case Null => false
  }

  /** `value if value else "None"`. */
  function OrNone(v: MetaValue): MetaValue
  {
    if Truthy(v) then v else Text("None")
  }

  function TagsValue(tags: Option<seq<string>>): MetaValue
  {
    match tags
    case None => Null
    case Some(l) => TextList(l)
  }

  /** A record as the dictionary the writer reads it from (`doc[key]`), for
      the twelve keys it copies into the metadata. */
  function AsDict(d: Record): map<string, MetaValue>
  {
    map[
      "source" := Text(d.source),
      "file_path" := Text(d.filePath),
      "board" := Text(d.board),
      "language" := Text(d.language),
      "class" := Text(d.cls),
      "subject" := Text(d.subject),
      "subject_part" := Number(d.subjectPart),
      "author" := Text(d.author),
      "tags" := TagsValue(d.tags),
      "page" := Number(d.page),
      "total_pages" := Number(d.totalPages),
      "content" := Text(d.content)]
  }

  /** The metadata attached to a record's vector at clock reading `now`:
      each of the twelve fields with the falsy-to-"None" rule, then the
      writer's own date and time. */
  function Metadata(d: Record, now: Stamp): map<string, MetaValue>
  {
    var fields := AsDict(d);
    (map k | k in fields :: OrNone(fields[k]))["date" := Text(now.date)]["time" := Text(now.time)]
  }

  /** Every copied field keeps its value when that value is truthy and
      becomes the string "None" when it is falsy; the date and time are
      the writer's own clock reading, not the record's. */
  lemma MetadataFields(d: Record, now: Stamp)
    ensures Metadata(d, now).Keys == AsDict(d).Keys + {"date", "time"}
    ensures forall k :: k in AsDict(d) ==>
      && (Truthy(AsDict(d)[k]) ==> Metadata(d, now)[k] == AsDict(d)[k])
      && (!Truthy(AsDict(d)[k]) ==> Metadata(d, now)[k] == Text("None"))
    ensures Metadata(d, now)["date"] == Text(now.date)
    ensures Metadata(d, now)["time"] == Text(now.time)
  {
    assert "date" !in AsDict(d) && "time" !in AsDict(d);
  }

  /** The substitution is lossy: a field reads "None" exactly when it was
      falsy or was itself the string "None" (so a subject part or page of
      0 cannot be told from a missing one). */
  lemma MetadataNoneIff(d: Record, now: Stamp, k: string)
    requires k in AsDict(d)
    ensures Metadata(d, now)[k] == Text("None")
        <==> !Truthy(AsDict(d)[k]) || AsDict(d)[k] == Text("None")
  {
    MetadataFields(d, now);
  }

  // ---------------------------------------------------------------------------
  // Vector ids
  // ---------------------------------------------------------------------------

  /** The classification part `board_language_class_subject_subjectPart_`. */
  function IdPrefix(d: Record): string
  {
    d.board + "_" + d.language + "_" + d.cls + "_" + d.subject + "_" + IntToString(d.subjectPart) + "_"
  }

  /** The id of the i-th vector of a batch, stamped with clock reading `now`. */
  function VectorId(d: Record, i: nat, now: Stamp): string
  {
    IdPrefix(d) + NatToString(i) + "_" + StampText(now)
  }

  /** Two records with the same classification fields. */
  predicate SameClassification(d1: Record, d2: Record)
  {
    && d1.board == d2.board && d1.language == d2.language && d1.cls == d2.cls
    && d1.subject == d2.subject && d1.subjectPart == d2.subjectPart
  }

  /** The number of decimal digits at the start of `s`. */
  function LeadingDigits(s: string): nat
  {
    if s != [] && IsDigit(s[0]) then 1 + LeadingDigits(s[1..]) else 0
  }

  /** The digits of a number end where the '_' after them starts. */
  lemma {:induction false} LeadingDigitsBeforeUnderscore(a: string, s: string)
    requires forall i :: 0 <= i < |a| ==> IsDigit(a[i])
    ensures LeadingDigits(a + "_" + s) == |a|
  {
    var x := a + "_" + s;
    if a == [] {
      assert x[0] == '_';
    } else {
      assert x[1..] == a[1..] + "_" + s;
      LeadingDigitsBeforeUnderscore(a[1..], s);
    }
  }

  /** Within a batch whose records share their classification, the index
      component alone keeps ids apart, whatever the clock readings. */
  lemma IdsDistinct(d1: Record, d2: Record, i: nat, j: nat, t1: Stamp, t2: Stamp)
    requires SameClassification(d1, d2) && i != j
    ensures VectorId(d1, i, t1) != VectorId(d2, j, t2)
  {
    var p := IdPrefix(d1);
    assert IdPrefix(d2) == p;
    if VectorId(d1, i, t1) == VectorId(d2, j, t2) {
      var x := VectorId(d1, i, t1);
      assert x == p + (NatToString(i) + "_" + StampText(t1));
      assert x == p + (NatToString(j) + "_" + StampText(t2));
      assert x[|p|..] == NatToString(i) + "_" + StampText(t1);
      assert x[|p|..] == NatToString(j) + "_" + StampText(t2);
      var si, sj := NatToString(i), NatToString(j);
      LeadingDigitsBeforeUnderscore(si, StampText(t1));
      LeadingDigitsBeforeUnderscore(sj, StampText(t2));
      assert |si| == |sj|;
      assert si == x[|p|..][..|si|] == sj;
      NatToStringInjective(i, j);
    }
  }

  /** Every id starts with the classification prefix, followed by the index. */
  lemma IdShape(d: Record, i: nat, now: Stamp)
    ensures StartsWith(VectorId(d, i, now), IdPrefix(d))
    ensures VectorId(d, i, now)[|IdPrefix(d)|..] == NatToString(i) + "_" + StampText(now)
  {
    var p, rest := IdPrefix(d), NatToString(i) + "_" + StampText(now);
    assert VectorId(d, i, now) == p + rest;
  }

  // ---------------------------------------------------------------------------
  // One call of the writer
  // ---------------------------------------------------------------------------

  /** One entry of the upsert: `{'id', 'values', 'metadata'}`. */
  datatype VectorRecord = VectorRecord(id: string, values: Embedding, metadata: map<string, MetaValue>)

  /** The entry for record `d` at position `i`, clock reading `now`. */
  function VectorFor(d: Record, i: nat, now: Stamp, values: Embedding): VectorRecord
  {
    VectorRecord(VectorId(d, i, now), values, Metadata(d, now))
  }

  /** One `upsert` call on an index, under a namespace. */
  datatype Upsert = Upsert(index: string, namespace: string, vectors: seq<VectorRecord>)

  /** The position of the first record whose embedding fails, or `|docs|`
      when none does. */
  function FirstFailure(model: string -> Option<Embedding>, docs: seq<Record>): (k: nat)
    ensures k <= |docs|
    ensures forall j :: 0 <= j < k ==> model(docs[j].content).Some?
    ensures k < |docs| ==> model(docs[k].content).None?
  {
    if docs == [] then 0
    else if model(docs[0].content).None? then 0
    else 1 + FirstFailure(model, docs[1..])
  }

  /** The texts of a batch, in order. */
  function Contents(docs: seq<Record>): seq<string>
  {
    seq(|docs|, i requires 0 <= i < |docs| => docs[i].content)
  }

  /** The accumulated vector list when every embedding succeeds. */
  function Vectors(docs: seq<Record>, model: string -> Option<Embedding>, clock: Clock): seq<VectorRecord>
    requires forall j :: 0 <= j < |docs| ==> model(docs[j].content).Some?
  {
    if docs == [] then []
    else
      var n := |docs| - 1;
      Vectors(docs[..n], model, clock)
        + [VectorFor(docs[n], n, clock(n), model(docs[n].content).value)]
  }

  /** One entry per record. */
  lemma {:induction false} VectorsLength(docs: seq<Record>, model: string -> Option<Embedding>, clock: Clock)
    requires forall j :: 0 <= j < |docs| ==> model(docs[j].content).Some?
    ensures |Vectors(docs, model, clock)| == |docs|
  {
    if docs != [] {
      VectorsLength(docs[..|docs| - 1], model, clock);
    }
  }

  lemma {:induction false} VectorsAt(docs: seq<Record>, model: string -> Option<Embedding>, clock: Clock, i: nat)
    requires forall j :: 0 <= j < |docs| ==> model(docs[j].content).Some?
    requires i < |docs|
    ensures |Vectors(docs, model, clock)| == |docs|
    ensures Vectors(docs, model, clock)[i] == VectorFor(docs[i], i, clock(i), model(docs[i].content).value)
  {
    var n := |docs| - 1;
    var init := docs[..n];
    VectorsLength(docs, model, clock);
    VectorsLength(init, model, clock);
    assert Vectors(docs, model, clock)
        == Vectors(init, model, clock) + [VectorFor(docs[n], n, clock(n), model(docs[n].content).value)];
    if i < n {
      VectorsAt(init, model, clock, i);
      assert init[i] == docs[i];
      assert Vectors(docs, model, clock)[i] == Vectors(init, model, clock)[i];
    }
  }

  lemma VectorsSnoc(docs: seq<Record>, model: string -> Option<Embedding>, clock: Clock, i: nat)
    requires i < |docs|
    requires forall j :: 0 <= j <= i ==> model(docs[j].content).Some?
    ensures Vectors(docs[..i + 1], model, clock)
         == Vectors(docs[..i], model, clock) + [VectorFor(docs[i], i, clock(i), model(docs[i].content).value)]
  {
    assert docs[..i + 1][..i] == docs[..i];
  }

  lemma ContentsSnoc(docs: seq<Record>, i: nat)
    requires i < |docs|
    ensures Contents(docs[..i + 1]) == Contents(docs[..i]) + [docs[i].content]
  {
  }

  /** What one call does: the texts sent to the embedding function, the
      upserts issued and how the call ends. */
  datatype Run = Run(calls: seq<string>, upserts: seq<Upsert>, outcome: Outcome)

  /** One call of the writer, given whether the index exists. */
  function VectorRun(indexExists: bool, indexName: string, docs: seq<Record>, namespace: string,
                     model: string -> Option<Embedding>, clock: Clock): Run
  {
    if !indexExists then Run([], [], Pass)
    else
      var k := FirstFailure(model, docs);
      if k < |docs| then Run(Contents(docs[..k + 1]), [], Fail(EmbeddingError(docs[k].content)))
      else Run(Contents(docs), [Upsert(indexName, namespace, Vectors(docs, model, clock))], Pass)
  }

  /** A missing index: the call returns normally, with no embedding call and
      no upsert. */
  lemma MissingIndexNoWrites(indexName: string, docs: seq<Record>, namespace: string,
                             model: string -> Option<Embedding>, clock: Clock)
    ensures VectorRun(false, indexName, docs, namespace, model, clock) == Run([], [], Pass)
  {
  }

  /** Every embedding succeeds: each record's raw content is embedded once,
      in order, and exactly one upsert carries one entry per record, in
      order, under the caller's namespace; entry i has the record's id,
      the embedding of its content and its metadata. */
  lemma RunWhenAllEmbed(indexName: string, docs: seq<Record>, namespace: string,
                        model: string -> Option<Embedding>, clock: Clock)
    requires forall j :: 0 <= j < |docs| ==> model(docs[j].content).Some?
    ensures var run := VectorRun(true, indexName, docs, namespace, model, clock);
      && run.outcome == Pass
      && run.calls == Contents(docs)
      && |run.upserts| == 1
      && run.upserts[0].index == indexName
      && run.upserts[0].namespace == namespace
      && |run.upserts[0].vectors| == |docs|
      && forall i :: 0 <= i < |docs| ==>
        var v := run.upserts[0].vectors[i];
        && v.id == VectorId(docs[i], i, clock(i))
        && Some(v.values) == model(docs[i].content)
        && v.metadata == Metadata(docs[i], clock(i))
  {
    assert FirstFailure(model, docs) == |docs|;
    if docs != [] {
      VectorsAt(docs, model, clock, 0);
    }
    forall i | 0 <= i < |docs|
      ensures Vectors(docs, model, clock)[i] == VectorFor(docs[i], i, clock(i), model(docs[i].content).value)
    {
      VectorsAt(docs, model, clock, i);
    }
  }

  /** Some embedding fails: the calls stop at the first failing record, no
      upsert is issued and that failure is raised. */
  lemma RunWhenEmbeddingFails(indexName: string, docs: seq<Record>, namespace: string,
                              model: string -> Option<Embedding>, clock: Clock, k: nat)
    requires k < |docs| && model(docs[k].content).None?
    requires forall j :: 0 <= j < k ==> model(docs[j].content).Some?
    ensures var run := VectorRun(true, indexName, docs, namespace, model, clock);
      && run.upserts == []
      && run.outcome == Fail(EmbeddingError(docs[k].content))
      && run.calls == Contents(docs[..k + 1])
  {
    assert FirstFailure(model, docs) == k;
  }

  /** At most one upsert per call, and one exactly when the index exists
      and every embedding succeeds: there is no partial write. */
  lemma AtMostOneUpsert(indexExists: bool, indexName: string, docs: seq<Record>, namespace: string,
                        model: string -> Option<Embedding>, clock: Clock)
    ensures var run := VectorRun(indexExists, indexName, docs, namespace, model, clock);
      && |run.upserts| <= 1
      && (|run.upserts| == 1 <==> indexExists && forall j :: 0 <= j < |docs| ==> model(docs[j].content).Some?)
      && (run.outcome == Pass <==> !indexExists || forall j :: 0 <= j < |docs| ==> model(docs[j].content).Some?)
  {
  }

  /** In a batch whose records share their classification, the upserted ids
      are pairwise distinct and all start with that classification. */
  lemma BatchIdsDistinct(indexName: string, docs: seq<Record>, namespace: string,
                         model: string -> Option<Embedding>, clock: Clock)
    requires forall j :: 0 <= j < |docs| ==> model(docs[j].content).Some?
    requires forall i, j :: 0 <= i < |docs| && 0 <= j < |docs| ==> SameClassification(docs[i], docs[j])
    ensures var vs := VectorRun(true, indexName, docs, namespace, model, clock).upserts[0].vectors;
      && (forall i, j :: 0 <= i < j < |vs| ==> vs[i].id != vs[j].id)
      && (forall i :: 0 <= i < |vs| ==> StartsWith(vs[i].id, IdPrefix(docs[0])))
  {
    RunWhenAllEmbed(indexName, docs, namespace, model, clock);
    var vs := VectorRun(true, indexName, docs, namespace, model, clock).upserts[0].vectors;
    forall i, j | 0 <= i < j < |vs|
      ensures vs[i].id != vs[j].id
    {
      IdsDistinct(docs[i], docs[j], i, j, clock(i), clock(j));
    }
    forall i | 0 <= i < |vs|
      ensures StartsWith(vs[i].id, IdPrefix(docs[0]))
    {
      IdShape(docs[i], i, clock(i));
      assert IdPrefix(docs[i]) == IdPrefix(docs[0]);
    }
  }

  class VectorStore {
    /** INDEX_NAME from the configuration. */
    const indexName: string
    /** The names of the indexes that exist in the vector database. */
    var indexes: set<string>
    /** Every upsert issued, in order. */
    var upserts: seq<Upsert>

    constructor (indexName: string, indexes: set<string>)
      ensures this.indexName == indexName && this.indexes == indexes && upserts == []
    {
      this.indexName := indexName;
      this.indexes := indexes;
      upserts := [];
    }

    /** `vector_store(docs, namespace, func)`. */
    method StoreVectors(docs: seq<Record>, namespace: string, embedder: Embedder, clock: Clock)
      returns (outcome: Outcome)
      modifies this`upserts, embedder`calls
      ensures var run := VectorRun(indexName in indexes, indexName, docs, namespace, embedder.model, clock);
        && embedder.calls == old(embedder.calls) + run.calls
        && upserts == old(upserts) + run.upserts
        && outcome == run.outcome
    {
      if indexName !in indexes {
        MissingIndexNoWrites(indexName, docs, namespace, embedder.model, clock);
        return Pass;
      }
      var vectorList: seq<VectorRecord> := [];
      var i := 0;
      while i < |docs|
        invariant i <= |docs|
        invariant forall j :: 0 <= j < i ==> embedder.model(docs[j].content).Some?
        invariant embedder.calls == old(embedder.calls) + Contents(docs[..i])
        invariant vectorList == Vectors(docs[..i], embedder.model, clock)
        invariant upserts == old(upserts)
      {
        var doc := docs[i];
        var metadata := Metadata(doc, clock(i));
        var id := VectorId(doc, i, clock(i));
        var embedding := embedder.Embed(doc.content);
        ContentsSnoc(docs, i);
        if embedding.None? {
          assert FirstFailure(embedder.model, docs) == i;
          assert VectorRun(true, indexName, docs, namespace, embedder.model, clock)
              == Run(Contents(docs[..i + 1]), [], Fail(EmbeddingError(doc.content)));
          return Fail(EmbeddingError(doc.content));
        }
        VectorsSnoc(docs, embedder.model, clock, i);
        vectorList := vectorList + [VectorRecord(id, embedding.value, metadata)];
        i := i + 1;
      }
      assert docs[..i] == docs;
      assert FirstFailure(embedder.model, docs) == |docs|;
      assert VectorRun(true, indexName, docs, namespace, embedder.model, clock)
          == Run(Contents(docs), [Upsert(indexName, namespace, vectorList)], Pass);
      upserts := upserts + [Upsert(indexName, namespace, vectorList)];
      return Pass;
    }
  }
}
