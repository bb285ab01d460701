/**
 * The REST controller that writes URL collections and registers their keys
 * on a spider (backend/src/controllers/urls-collections.controller.ts).
 *
 * `addCollection` upserts a collection and appends its key to the spider's
 * `urlsCollections` list when the key is absent; `DeleteUrlsCollection`
 * removes the first occurrence of the key from that list and deletes the
 * collection. The list written here is the one the crawler's seed resolver
 * walks.
 *
 * The Firestore services become a `Database` object holding two maps and a
 * log of the writes issued, in order. The key a collection derives from its
 * name and spider is opaque: callers pass it in.
 */
module UrlsCollectionsController {
  import opened Wrappers

  /** A stored URL collection. */
  datatype UrlsCollection = UrlsCollection(key: string, name: string, spiderName: string, urlsList: seq<string>)

  /** The body of the POST request. */
  datatype CreateUrlsCollectionDto = CreateUrlsCollectionDto(name: string, spiderName: string, urlsList: seq<string>)

  /**
   * A stored spider: its name (its storage key), its optional list of
   * collection keys, and the remaining fields, carried unchanged by a clone.
   */
  datatype Spider = Spider(name: string, urlsCollections: Option<seq<string>>, otherFields: map<string, string>)

  /** A write issued to the store. */
  datatype Write =
    | UpdateCollection(collection: UrlsCollection)
    | UpdateSpider(spider: Spider)
    | DeleteCollection(key: string)

  /** The errors the controller and the services it calls raise. */
  datatype ControllerError =
    | BlankCollectionKey   // getCollection: 'collection key cannot be blank'
    | BlankSpiderName      // getSpider: 'spider name cannot be blank'
    | SpiderNotFound       // 'Spider ... does not exist'
    | NoUrlsCollection     // 'Spider ... has no urls collection'
    | UnknownCollection    // 'Unknown collection ...'

  // ---------------------------------------------------------------------
  // The list logic, as functions
  // ---------------------------------------------------------------------

  /** Index of the first occurrence of `key` in `names`, or -1. */
  function IndexOf(names: seq<string>, key: string): (r: int)
    ensures -1 <= r < |names|
    ensures r == -1 <==> key !in names
    ensures r >= 0 ==> names[r] == key && key !in names[..r]
  {
    if names == [] then -1
    else if names[0] == key then 0
    else
      var i := IndexOf(names[1..], key);
      assert names[1..][..(if i < 0 then 0 else i)] == names[1..(if i < 0 then 1 else i + 1)];
      if i == -1 then -1 else i + 1
  }

  /** `urlsCollections` after registering `key`: appended only when absent. */
  function WithKey(names: seq<string>, key: string): seq<string> {
    if key in names then names else names + [key]
  }

  /** `urlsCollections` after `splice(IndexOf(names, key), 1)` when the key is present. */
  function WithoutFirst(names: seq<string>, key: string): seq<string> {
    var i := IndexOf(names, key);
    if i == -1 then names else names[..i] + names[i + 1..]
  }

  /** The collection `addCollection` writes: the stored one with its list replaced, or a new one. */
  function Upserted(stored: Option<UrlsCollection>, dto: CreateUrlsCollectionDto, key: string): UrlsCollection {
    match stored
    case Some(c) => c.(urlsList := dto.urlsList)
    case None => UrlsCollection(key, dto.name, dto.spiderName, dto.urlsList)
  }

  /** No name occurs twice. */
  predicate NoDuplicates(names: seq<string>) {
    forall i, j :: 0 <= i < j < |names| ==> names[i] != names[j]
  }

  // ---------------------------------------------------------------------
  // The `every` scans of the controller
  // ---------------------------------------------------------------------

  /** The scan of `addCollection`: `every` stops at the first element equal to the key. */
  method ContainsKey(names: seq<string>, key: string) returns (existing: bool)
    ensures existing <==> key in names
  {
    existing := false;
    var i := 0;
    while i < |names|
      invariant 0 <= i <= |names|
      invariant !existing && key !in names[..i]
    {
      if names[i] == key {
        existing := true;
        return;
      }
      i := i + 1;
    }
    assert names[..i] == names;
  }

  /** The scan of `DeleteUrlsCollection`: the index of the first occurrence, or -1. */
  method FindKeyIndex(names: seq<string>, key: string) returns (existingIndex: int)
    ensures existingIndex == -1 <==> key !in names
    ensures existingIndex != -1 ==> 0 <= existingIndex < |names| && names[existingIndex] == key
    ensures existingIndex != -1 ==> forall j :: 0 <= j < existingIndex ==> names[j] != key
  {
    existingIndex := -1;
    var i := 0;
    while i < |names|
      invariant 0 <= i <= |names|
      invariant forall j :: 0 <= j < i ==> names[j] != key
    {
      if names[i] == key {
        existingIndex := i;
        return;
      }
      i := i + 1;
    }
  }

  // ---------------------------------------------------------------------
  // The store and the two endpoints
  // ---------------------------------------------------------------------

  class Database {
    /** The URL collections, by key. */
    var collections: map<string, UrlsCollection>
    /** The spiders, by name. */
    var spiders: map<string, Spider>
    /** The writes issued so far, in order. */
    var writes: seq<Write>

    /** Every document is stored under its own key. */
    ghost predicate Valid()
      reads this
    {
      && (forall k :: k in collections ==> collections[k].key == k)
      && (forall n :: n in spiders ==> spiders[n].name == n)
    }

    constructor (collections: map<string, UrlsCollection>, spiders: map<string, Spider>)
      requires forall k :: k in collections ==> collections[k].key == k
      requires forall n :: n in spiders ==> spiders[n].name == n
      ensures Valid()
      ensures this.collections == collections && this.spiders == spiders && writes == []
    {
      this.collections := collections;
      this.spiders := spiders;
      writes := [];
    }

    /** The `upsert` behind `updateCollection`. */
    method UpdateCollectionDoc(c: UrlsCollection)
      requires Valid()
      modifies this
      ensures Valid()
      ensures collections == old(collections)[c.key := c] && spiders == old(spiders)
      ensures writes == old(writes) + [UpdateCollection(c)]
    {
      collections := collections[c.key := c];
      writes := writes + [UpdateCollection(c)];
    }

    /** The `upsert` behind `updateSpider`. */
    method UpdateSpiderDoc(s: Spider)
      requires Valid()
      modifies this
      ensures Valid()
      ensures spiders == old(spiders)[s.name := s] && collections == old(collections)
      ensures writes == old(writes) + [UpdateSpider(s)]
    {
      spiders := spiders[s.name := s];
      writes := writes + [UpdateSpider(s)];
    }

    /** The `remove` behind `deleteCollection`. */
    method DeleteCollectionDoc(key: string)
      requires Valid()
      modifies this
      ensures Valid()
      ensures collections == old(collections) - {key} && spiders == old(spiders)
      ensures writes == old(writes) + [DeleteCollection(key)]
    {
      collections := collections - {key};
      writes := writes + [DeleteCollection(key)];
    }

    /**
     * `addCollection` (POST). `key` is the key `new URLsCollection(createDto)`
     * derives. The lookups come first; a blank key, a blank spider name or a
     * missing spider raises before anything is written. Then the collection
     * is upserted and, only when its key is not yet listed on the spider,
     * the spider is rewritten with the key appended.
     */
    method AddCollection(dto: CreateUrlsCollectionDto, key: string) returns (r: Result<(), ControllerError>)
      requires Valid()
      modifies this
      ensures Valid()
      ensures key == "" ==> r == Failure(BlankCollectionKey)
      ensures key != "" && dto.spiderName == "" ==> r == Failure(BlankSpiderName)
      ensures key != "" && dto.spiderName != "" && dto.spiderName !in old(spiders) ==> r == Failure(SpiderNotFound)
      ensures key != "" && dto.spiderName != "" && dto.spiderName in old(spiders) ==> r.Success?
      ensures r.Failure? ==> collections == old(collections) && spiders == old(spiders) && writes == old(writes)
      ensures r.Success? ==>
        var coll := Upserted(if key in old(collections) then Some(old(collections)[key]) else None, dto, key);
        var spider := old(spiders)[dto.spiderName];
        var names := spider.urlsCollections.GetOr([]);
        && key != "" && dto.spiderName != "" && dto.spiderName in old(spiders)
        && collections == old(collections)[key := coll]
        && (key in names ==> spiders == old(spiders) && writes == old(writes) + [UpdateCollection(coll)])
        && (key !in names ==>
              var spider' := spider.(urlsCollections := Some(WithKey(names, key)));
              && spiders == old(spiders)[dto.spiderName := spider']
              && writes == old(writes) + [UpdateCollection(coll), UpdateSpider(spider')])
    {
      if key == "" {
        return Failure(BlankCollectionKey);
      }
      var coll := if key in collections then Some(collections[key]) else None;
      if dto.spiderName == "" {
        return Failure(BlankSpiderName);
      }
      if dto.spiderName !in spiders {
        return Failure(SpiderNotFound);
      }
      var spider := spiders[dto.spiderName];

      var cloneColl := Upserted(coll, dto, key);
      UpdateCollectionDoc(cloneColl);

      var names := spider.urlsCollections.GetOr([]);
      var existingColl := ContainsKey(names, cloneColl.key);
      if !existingColl {
        UpdateSpiderDoc(spider.(urlsCollections := Some(names + [cloneColl.key])));
      }
      return Success(());
    }

    /**
     * `DeleteUrlsCollection` (DELETE). An unknown collection, a missing
     * spider or a spider without `urlsCollections` raises before anything is
     * written. An empty list is not missing: JavaScript's `![]` is false.
     * The first occurrence of the key is removed and the spider rewritten
     * only when the key is listed; the collection is deleted either way.
     */
    method DeleteUrlsCollection(collectionKey: string) returns (r: Result<(), ControllerError>)
      requires Valid()
      modifies this
      ensures Valid()
      ensures collectionKey == "" ==> r == Failure(BlankCollectionKey)
      ensures collectionKey != "" && collectionKey !in old(collections) ==> r == Failure(UnknownCollection)
      ensures collectionKey != "" && collectionKey in old(collections) ==>
        var spiderName := old(collections)[collectionKey].spiderName;
        spiderName != "" && spiderName in old(spiders) && old(spiders)[spiderName].urlsCollections.Some? ==>
          r.Success?
      ensures r.Failure? ==> collections == old(collections) && spiders == old(spiders) && writes == old(writes)
      ensures r.Success? ==>
        && collectionKey != "" && collectionKey in old(collections)
        && var spiderName := old(collections)[collectionKey].spiderName;
        && spiderName in old(spiders) && old(spiders)[spiderName].urlsCollections.Some?
        && var spider := old(spiders)[spiderName];
        var names := spider.urlsCollections.value;
        && collections == old(collections) - {collectionKey}
        && (collectionKey !in names ==>
              spiders == old(spiders) && writes == old(writes) + [DeleteCollection(collectionKey)])
        && (collectionKey in names ==>
              var spider' := spider.(urlsCollections := Some(WithoutFirst(names, collectionKey)));
              && spiders == old(spiders)[spiderName := spider']
              && writes == old(writes) + [UpdateSpider(spider'), DeleteCollection(collectionKey)])
      ensures collectionKey != "" && collectionKey in old(collections) ==>
        var spiderName := old(collections)[collectionKey].spiderName;
        && (spiderName == "" ==> r == Failure(BlankSpiderName))
        && (spiderName != "" && spiderName !in old(spiders) ==> r == Failure(SpiderNotFound))
        && (spiderName != "" && spiderName in old(spiders) && old(spiders)[spiderName].urlsCollections.None? ==>
              r == Failure(NoUrlsCollection))
    {
      if collectionKey == "" {
        return Failure(BlankCollectionKey);
      }
      if collectionKey !in collections {
        return Failure(UnknownCollection);
      }
      var coll := collections[collectionKey];
      if coll.spiderName == "" {
        return Failure(BlankSpiderName);
      }
      if coll.spiderName !in spiders {
        return Failure(SpiderNotFound);
      }
      var spider := spiders[coll.spiderName];
      if spider.urlsCollections.None? {
        return Failure(NoUrlsCollection);
      }
      var names := spider.urlsCollections.value;
      var existingCollIndex := FindKeyIndex(names, coll.key);
      if existingCollIndex > -1 {
        UpdateSpiderDoc(spider.(urlsCollections := Some(names[..existingCollIndex] + names[existingCollIndex + 1..])));
      }
      DeleteCollectionDoc(coll.key);
      return Success(());
    }
  }

  // ---------------------------------------------------------------------
  // Properties of the list logic
  // ---------------------------------------------------------------------

  /** Registering a key keeps the old list as a prefix and makes the key present. */
  lemma WithKeyRegisters(names: seq<string>, key: string)
    ensures key in WithKey(names, key)
    ensures |names| <= |WithKey(names, key)| <= |names| + 1
    ensures WithKey(names, key)[..|names|] == names
    ensures multiset(WithKey(names, key)) == multiset(names) + (if key in names then multiset{} else multiset{key})
  {
    if key !in names {
      assert (names + [key])[..|names|] == names;
    }
  }

  /** Registering never introduces a duplicate. */
  lemma WithKeyKeepsNoDuplicates(names: seq<string>, key: string)
    requires NoDuplicates(names)
    ensures NoDuplicates(WithKey(names, key))
  {
    if key !in names {
      var r := names + [key];
      forall i, j | 0 <= i < j < |r| ensures r[i] != r[j] {
        if j == |names| {
          assert r[i] == names[i];
        }
      }
    }
  }

  /** Registering an already listed key is idempotent. */
  lemma WithKeyIdempotent(names: seq<string>, key: string)
    ensures WithKey(WithKey(names, key), key) == WithKey(names, key)
  {
    WithKeyRegisters(names, key);
  }

  /** Removing the first occurrence drops exactly one copy of the key, or changes nothing. */
  lemma WithoutFirstRemovesOne(names: seq<string>, key: string)
    ensures key !in names ==> WithoutFirst(names, key) == names
    ensures key in names ==> |WithoutFirst(names, key)| == |names| - 1
    ensures multiset(WithoutFirst(names, key)) == multiset(names) - multiset{key}
  {
    var i := IndexOf(names, key);
    if i == -1 {
      assert multiset(names)[key] == 0;
      assert multiset(names) - multiset{key} == multiset(names);
    } else {
      var before, after := names[..i], names[i + 1..];
      assert names == before + [key] + after;
      assert multiset(names) == multiset(before) + multiset{key} + multiset(after);
      assert WithoutFirst(names, key) == before + after;
    }
  }

  /** Every name other than the removed occurrence keeps its relative position. */
  lemma WithoutFirstKeepsOrder(names: seq<string>, key: string)
    requires key in names
    ensures WithoutFirst(names, key)[..IndexOf(names, key)] == names[..IndexOf(names, key)]
    ensures WithoutFirst(names, key)[IndexOf(names, key)..] == names[IndexOf(names, key) + 1..]
  {
    var i := IndexOf(names, key);
    var before, after := names[..i], names[i + 1..];
    assert WithoutFirst(names, key) == before + after;
    assert (before + after)[..i] == before;
    assert (before + after)[i..] == after;
  }

  /** On a list without duplicates, deleting the key leaves it absent. */
  lemma WithoutFirstRemovesKey(names: seq<string>, key: string)
    requires NoDuplicates(names)
    ensures key !in WithoutFirst(names, key)
  {
    WithoutFirstRemovesOne(names, key);
    if key in names {
      var i := IndexOf(names, key);
      assert multiset(names)[key] == 1 by {
        forall j | 0 <= j < |names| && j != i ensures names[j] != key {
          if j < i {
            assert names[j] != names[i];
          } else {
            assert names[i] != names[j];
          }
        }
        MultisetCountOne(names, i);
      }
    }
  }

  /** An element listed only at index `i` occurs exactly once. */
  lemma {:induction false} MultisetCountOne(names: seq<string>, i: int)
    requires 0 <= i < |names|
    requires forall j :: 0 <= j < |names| && j != i ==> names[j] != names[i]
    ensures multiset(names)[names[i]] == 1
  {
    var key := names[i];
    assert names == names[..i] + [key] + names[i + 1..];
    assert key !in names[..i];
    var after := names[i + 1..];
    forall k | 0 <= k < |after| ensures after[k] != key {
      assert after[k] == names[i + 1 + k];
    }
    assert key !in after;
  }

  /** Deleting a freshly registered key restores the spider's list. */
  lemma AddThenDeleteRestores(names: seq<string>, key: string)
    requires key !in names
    ensures WithoutFirst(WithKey(names, key), key) == names
  {
    var r := names + [key];
    assert IndexOf(r, key) == |names| by {
      assert r[|names|] == key;
      assert r[..|names|] == names;
    }
    assert r[..|names|] == names;
  }

  /** The upsert keeps every stored field except `urlsList`, which becomes the request's list. */
  lemma UpsertedReplacesOnlyList(stored: Option<UrlsCollection>, dto: CreateUrlsCollectionDto, key: string)
    ensures Upserted(stored, dto, key).urlsList == dto.urlsList
    ensures stored.Some? ==>
      && Upserted(stored, dto, key).key == stored.value.key
      && Upserted(stored, dto, key).name == stored.value.name
      && Upserted(stored, dto, key).spiderName == stored.value.spiderName
    ensures stored.None? ==> Upserted(stored, dto, key) == UrlsCollection(key, dto.name, dto.spiderName, dto.urlsList)
  {
  }
}
