/**
 `setupMongoDatabase` and its helper `contains` from main.go: on start the
 server makes sure the `urls` collection exists, drops its indexes and
 installs a single TTL index on `lastmodifieddate`.

 Index sets here hold the secondary indexes of `urls`; the mandatory `_id`
 index, which dropping all indexes never removes, is left implicit.
 */
module Startup {
  import opened Wrappers

  const DatabaseName: string := "urlshort"
  const UrlsCollection: string := "urls"
  const TTLIndexName: string := "ttl_lastmodifieddate"
  const TTLField: string := "lastmodifieddate"

  /** One day, written as main.go writes it. */
  const TTLSeconds: int := 1 * 24 * 60 * 60

  /** An index on one field, ascending (1) or descending (-1), with an optional expiry. */
  datatype Index = Index(name: string, field: string, order: int, expireAfterSeconds: Option<int>)

  /** The index setup installs. */
  const TTLIndex: Index := Index(TTLIndexName, TTLField, 1, Some(TTLSeconds))

  /** The `urlshort` database: collection names as listed, and the indexes of `urls`. */
  datatype Database = Database(collections: seq<string>, urlIndexes: set<Index>)

  /** ListCollectionNames failed; main.go stops the process. */
  datatype SetupError = GetCollectionNamesFailed

  /** Whether `str` is one of the names in `arr`, scanning left to right. */
  function Contains(arr: seq<string>, str: string): (found: bool)
    ensures found <==> str in arr
    ensures |arr| == 0 ==> !found
  {
    if |arr| == 0 then false
    else if arr[0] == str then true
    else
      assert arr == [arr[0]] + arr[1..];
      Contains(arr[1..], str)
  }

  /**
   Startup: list the collections (an error when the driver cannot), create
   `urls` if it is not listed, drop every index of `urls`, then create the
   TTL index. `listOk` is the outcome of ListCollectionNames.
   */
  function Setup(db: Database, listOk: bool): (r: Result<Database, SetupError>)
    ensures r.Success? <==> listOk
    ensures !listOk ==> r == Failure(GetCollectionNamesFailed)
    ensures r.Success? ==> UrlsCollection in r.value.collections
    ensures r.Success? ==> r.value.urlIndexes == {Index("ttl_lastmodifieddate", "lastmodifieddate", 1, Some(86400))}
    ensures r.Success? ==> forall c :: c in r.value.collections <==> c in db.collections || c == UrlsCollection
    ensures r.Success? && UrlsCollection in db.collections ==> r.value.collections == db.collections
  {
    if !listOk then Failure(GetCollectionNamesFailed)
    else
      var collections :=
        if Contains(db.collections, UrlsCollection) then db.collections
        else db.collections + [UrlsCollection];
      Success(Database(collections, {TTLIndex}))
  }

  /** Running setup a second time changes nothing. */
  lemma SetupIdempotent(db: Database)
    ensures Setup(Setup(db, true).value, true) == Setup(db, true)
  {
  }
}
