/** The document-store writer `MONGODB_OPERATION`: a guarded batch insert
    into one collection of the configured database. */
module MongoDb {
  import opened Preprocessing

  /** One `insert_many` call: the collection written and the batch. */
  datatype InsertCall = InsertCall(collection: string, documents: seq<Record>)

  /** The collections of the database after `upload_data(data, collection)`
      on a database whose collections held `db`. */
  function AfterUpload(db: map<string, seq<Record>>, collection: string, data: seq<Record>)
    : map<string, seq<Record>>
  {
    if collection in db then db[collection := db[collection] + data] else db
  }

  /** The `insert_many` calls that `upload_data(data, collection)` issues. */
  function UploadInserts(db: map<string, seq<Record>>, collection: string, data: seq<Record>)
    : seq<InsertCall>
  {
    if collection in db then [InsertCall(collection, data)] else []
  }

  /** A collection missing from the database is neither written nor created. */
  lemma UploadToMissingCollection(db: map<string, seq<Record>>, collection: string, data: seq<Record>)
    requires collection !in db
    ensures AfterUpload(db, collection, data) == db
    ensures UploadInserts(db, collection, data) == []
  {
  }

  /** On an existing collection the whole batch is appended, in order, with
      one insert call; every other collection keeps its documents, and no
      collection appears or disappears. */
  lemma UploadToExistingCollection(db: map<string, seq<Record>>, collection: string, data: seq<Record>)
    requires collection in db
    ensures var after := AfterUpload(db, collection, data);
      && after.Keys == db.Keys
      && after[collection] == db[collection] + data
      && (forall other :: other in db && other != collection ==> after[other] == db[other])
    ensures UploadInserts(db, collection, data) == [InsertCall(collection, data)]
  {
  }

  /** No deduplication: uploading the same batch twice keeps both copies. */
  lemma UploadTwiceKeepsBothCopies(db: map<string, seq<Record>>, collection: string, data: seq<Record>)
    requires collection in db
    ensures var twice := AfterUpload(AfterUpload(db, collection, data), collection, data);
      && twice[collection] == db[collection] + data + data
      && multiset(twice[collection]) == multiset(db[collection]) + multiset(data) + multiset(data)
  {
  }

  class MongoOperation {
    /** DB_NAME from the configuration. */
    const dbName: string
    /** The documents of each existing collection of database `dbName`. */
    var collections: map<string, seq<Record>>
    /** Every `insert_many` issued, in order. */
    var insertCalls: seq<InsertCall>

    constructor (dbName: string, collections: map<string, seq<Record>>)
      ensures this.dbName == dbName && this.collections == collections && insertCalls == []
    {
      this.dbName := dbName;
      this.collections := collections;
      insertCalls := [];
    }

    /** `collection_exists`: whether the name is among the database's
        collection names. */
    method CollectionExists(collection: string) returns (exists_: bool)
      ensures exists_ <==> collection in collections
    {
      var names := collections.Keys;
      exists_ := collection in names;
    }

    /** `upload_data`: returns without writing when the collection does not
        exist, otherwise inserts the whole batch with one call. */
    method UploadData(data: seq<Record>, collection: string)
      modifies this`collections, this`insertCalls
      ensures collections == AfterUpload(old(collections), collection, data)
      ensures insertCalls == old(insertCalls) + UploadInserts(old(collections), collection, data)
    {
      var present := CollectionExists(collection);
      if !present {
        return;
      }
      insertCalls := insertCalls + [InsertCall(collection, data)];
      collections := collections[collection := collections[collection] + data];
    }
  }
}
