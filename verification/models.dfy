/** Request and response records of the gateway (src/models.rs), taken as
    already decoded from JSON, and the two pieces of response shaping the
    source performs itself: reordering the inserted ids of an insert-many by
    input position, and copying an update result into an update response. */
module Models {
  import opened Common

  /** A BSON value, reduced to the variants the gateway's callers use. */
  datatype Bson =
    | Null
    | Bool(b: bool)
    | Int32(i: int)
    | Int64(l: int)
    | Str(s: string)
    | ObjectId(oid: string)
    | Array(items: seq<Bson>)
    | Embedded(doc: Document)

  /** A BSON document: an ordered list of named fields. */
  datatype Document = Document(fields: seq<(string, Bson)>)

  /** `empty_document()`, the serde default of every optional filter. */
  const EmptyDocument: Document := Document([])

  /** The (database, collection) pair as the client sent it, untrimmed. */
  datatype NamespacePayload = NamespacePayload(database: string, collection: string)

  /** Driver options the gateway passes through without looking inside. */
  datatype Options = Options(settings: Document)

  /** `UpdateOptions` / `ReplaceOptions`: the gateway looks only at `upsert`;
      the remaining settings are passed through. */
  datatype UpsertOptions = UpsertOptions(upsert: Option<bool>, settings: Document)

  datatype InsertOneRequest = InsertOneRequest(namespace: NamespacePayload, document: Document, options: Option<Options>)
  datatype InsertManyRequest = InsertManyRequest(namespace: NamespacePayload, documents: seq<Document>, options: Option<Options>)
  datatype FindOneRequest = FindOneRequest(namespace: NamespacePayload, filter: Document, options: Option<Options>)
  datatype FindManyRequest = FindManyRequest(namespace: NamespacePayload, filter: Document, options: Option<Options>)
  datatype UpdateRequest = UpdateRequest(namespace: NamespacePayload, filter: Document, update: Document, options: Option<UpsertOptions>)
  datatype ReplaceOneRequest = ReplaceOneRequest(namespace: NamespacePayload, filter: Document, replacement: Document, options: Option<UpsertOptions>)
  datatype DeleteRequest = DeleteRequest(namespace: NamespacePayload, filter: Document, options: Option<Options>)
  datatype CollectionQuery = CollectionQuery(database: string)

  datatype InsertOneResponse = InsertOneResponse(insertedId: Bson)
  datatype InsertManyResponse = InsertManyResponse(insertedIds: seq<Bson>)
  datatype FindOneResponse = FindOneResponse(document: Document)
  datatype FindManyResponse = FindManyResponse(documents: seq<Document>)
  datatype UpdateResponse = UpdateResponse(matchedCount: U64, modifiedCount: U64, upsertedId: Option<Bson>)
  datatype DeleteResponse = DeleteResponse(deletedCount: U64)
  datatype CollectionsResponse = CollectionsResponse(collections: seq<string>)

  /** What the driver reports for the single-document and bulk writes. */
  datatype InsertOneResult = InsertOneResult(insertedId: Bson)
  datatype InsertManyResult = InsertManyResult(insertedIds: map<nat, Bson>)
  datatype UpdateResult = UpdateResult(matchedCount: U64, modifiedCount: U64, upsertedId: Option<Bson>)
  datatype DeleteResult = DeleteResult(deletedCount: U64)

  /** A find request body as it arrives, with the fields that serde fills in
      when they are missing still optional. */
  datatype FindBody = FindBody(database: string, collection: string, filter: Option<Document>, options: Option<Options>)

  /** Deserialising a find-one body: a missing filter is the empty document
      and missing options are `None`; present fields are kept. */
  function DecodeFindOne(b: FindBody): (r: FindOneRequest)
    ensures r.namespace == NamespacePayload(b.database, b.collection)
    ensures b.filter.None? ==> r.filter == EmptyDocument
    ensures b.filter.Some? ==> r.filter == b.filter.value
    ensures r.options == b.options
  {
    FindOneRequest(NamespacePayload(b.database, b.collection), b.filter.GetOr(EmptyDocument), b.options)
  }

  /** Deserialising a find-many body, with the same defaults. */
  function DecodeFindMany(b: FindBody): (r: FindManyRequest)
    ensures r.namespace == NamespacePayload(b.database, b.collection)
    ensures b.filter.None? ==> r.filter == EmptyDocument
    ensures b.filter.Some? ==> r.filter == b.filter.value
    ensures r.options == b.options
  {
    FindManyRequest(NamespacePayload(b.database, b.collection), b.filter.GetOr(EmptyDocument), b.options)
  }

  /** `UpdateResponse::from_parts`: a field-for-field copy. */
  function FromParts(matchedCount: U64, modifiedCount: U64, upsertedId: Option<Bson>): (r: UpdateResponse)
    ensures r.matchedCount == matchedCount && r.modifiedCount == modifiedCount
    ensures r.upsertedId == upsertedId
  {
    UpdateResponse(matchedCount, modifiedCount, upsertedId)
  }

  /** `UpdateResponse::from_update_result`: the response reports exactly the
      counts and the upserted id the driver reported. */
  function FromUpdateResult(result: UpdateResult): (r: UpdateResponse)
    ensures r.matchedCount == result.matchedCount
    ensures r.modifiedCount == result.modifiedCount
    ensures r.upsertedId == result.upsertedId
  {
    FromParts(result.matchedCount, result.modifiedCount, result.upsertedId)
  }

  // ---------------------------------------------------------------------
  // Reordering inserted ids by input position
  // ---------------------------------------------------------------------

  /** The least element of a non-empty set of indices. */
  ghost function MinOf(keys: set<nat>): (m: nat)
    requires keys != {}
    ensures m in keys && forall k :: k in keys ==> m <= k
    decreases keys
  {
    var x :| x in keys;
    if keys == {x} then
      x
    else
      var m := MinOf(keys - {x});
      assert forall k :: k in keys ==> k == x || k in keys - {x};
      if x < m then x else m
  }

  /** The ids of the given input positions, smallest position first: what
      sorting the `(index, id)` pairs by index and dropping the index
      yields. */
  ghost function InOrder(keys: set<nat>, ids: map<nat, Bson>): (r: seq<Bson>)
    requires keys <= ids.Keys
    ensures |r| == |keys|
    ensures forall i :: 0 <= i < |r| ==> exists k :: k in keys && r[i] == ids[k]
    decreases keys
  {
    if keys == {} then []
    else
      var m := MinOf(keys);
      var rest := InOrder(keys - {m}, ids);
      var r := [ids[m]] + rest;
      assert forall i :: 1 <= i < |r| ==> r[i] == rest[i - 1];
      r
  }

  /** The number of inserted documents that came before input position `k`. */
  function Rank(keys: set<nat>, k: nat): nat {
    |set j | j in keys && j < k|
  }

  /** `InsertManyResponse::from_inserted_ids`: the driver's index-to-id map
      becomes the list of ids in input order. The loop repeatedly takes the
      smallest index left, which is what sorting the pairs by index and
      dropping the index produces. */
  method FromInsertedIds(insertedIds: map<nat, Bson>) returns (r: InsertManyResponse)
    ensures |r.insertedIds| == |insertedIds|
    ensures r.insertedIds == InOrder(insertedIds.Keys, insertedIds)
  {
    var rest := insertedIds.Keys;
    var ids: seq<Bson> := [];
    while rest != {}
      invariant rest <= insertedIds.Keys
      invariant InOrder(insertedIds.Keys, insertedIds) == ids + InOrder(rest, insertedIds)
      decreases rest
    {
      ghost var least := MinOf(rest);
      var k :| k in rest && forall j :: j in rest ==> k <= j;
      assert k == least;
      ids := ids + [insertedIds[k]];
      rest := rest - {k};
    }
    r := InsertManyResponse(ids);
  }

  /** Counting the inserted documents before position `k` step by step: the
      smallest position has rank 0, and every other position has one more
      document before it than it has among the rest. */
  lemma {:induction false} InOrderAtRank(keys: set<nat>, ids: map<nat, Bson>, k: nat)
    requires keys <= ids.Keys && k in keys
    ensures Rank(keys, k) < |InOrder(keys, ids)| && InOrder(keys, ids)[Rank(keys, k)] == ids[k]
    decreases keys
  {
    var m := MinOf(keys);
    var rest := keys - {m};
    var below := set j | j in keys && j < k;
    if k == m {
      assert below == {};
    } else {
      var belowRest := set j | j in rest && j < k;
      assert below == {m} + belowRest;
      assert m !in belowRest;
      InOrderAtRank(rest, ids, k);
      assert InOrder(keys, ids) == [ids[m]] + InOrder(rest, ids);
    }
  }

  /** The id of the document at input position `k` sits at position
      `Rank(k)` of the response, the number of documents inserted before it. */
  lemma InsertedIdsByRank(insertedIds: map<nat, Bson>, k: nat)
    requires k in insertedIds
    ensures var r := InOrder(insertedIds.Keys, insertedIds);
            Rank(insertedIds.Keys, k) < |r| && r[Rank(insertedIds.Keys, k)] == insertedIds[k]
  {
    InOrderAtRank(insertedIds.Keys, insertedIds, k);
  }

  /** Ranks follow input positions: a document inserted earlier has a
      smaller rank, so the response is ordered by ascending index. */
  lemma RankStrictlyMonotone(keys: set<nat>, a: nat, b: nat)
    requires a in keys && a < b
    ensures Rank(keys, a) < Rank(keys, b)
  {
    var below := set j | j in keys && j < a;
    var belowB := set j | j in keys && j < b;
    assert below + {a} <= belowB;
    assert a !in below;
    SubsetCard(below + {a}, belowB);
  }

  /** A subset is no larger than its superset. */
  lemma {:induction false} SubsetCard(a: set<nat>, b: set<nat>)
    requires a <= b
    ensures |a| <= |b|
    decreases a
  {
    if a != {} {
      var x :| x in a;
      SubsetCard(a - {x}, b - {x});
    }
  }

  /** The response is a permutation of the map's entries: `k ↦ Rank(k)`
      sends each input position to a distinct position of the response
      holding its id, and every position of the response is reached, so
      an id reported for several positions appears that many times. */
  lemma InsertedIdsPermutation(insertedIds: map<nat, Bson>)
    ensures |InOrder(insertedIds.Keys, insertedIds)| == |insertedIds|
    ensures forall k :: k in insertedIds ==>
              Rank(insertedIds.Keys, k) < |InOrder(insertedIds.Keys, insertedIds)|
              && InOrder(insertedIds.Keys, insertedIds)[Rank(insertedIds.Keys, k)] == insertedIds[k]
    ensures forall a, b :: a in insertedIds && b in insertedIds && a != b ==>
              Rank(insertedIds.Keys, a) != Rank(insertedIds.Keys, b)
    ensures forall i :: 0 <= i < |InOrder(insertedIds.Keys, insertedIds)| ==>
              KeyAt(insertedIds.Keys, i) in insertedIds
              && InOrder(insertedIds.Keys, insertedIds)[i] == insertedIds[KeyAt(insertedIds.Keys, i)]
  {
    var keys := insertedIds.Keys;
    var r := InOrder(keys, insertedIds);
    forall k | k in insertedIds ensures Rank(keys, k) < |r| && r[Rank(keys, k)] == insertedIds[k] {
      InsertedIdsByRank(insertedIds, k);
    }
    RankInjective(keys);
    forall i | 0 <= i < |r| ensures r[i] == insertedIds[KeyAt(keys, i)] {
      InsertedIdsByRank(insertedIds, KeyAt(keys, i));
    }
  }

  /** Distinct input positions have distinct ranks. */
  lemma RankInjective(keys: set<nat>)
    ensures forall a, b :: a in keys && b in keys && a != b ==> Rank(keys, a) != Rank(keys, b)
  {
    forall a, b | a in keys && b in keys && a != b ensures Rank(keys, a) != Rank(keys, b) {
      if a < b {
        RankStrictlyMonotone(keys, a, b);
      } else {
        RankStrictlyMonotone(keys, b, a);
      }
    }
  }

  /** The input position of rank `i`: every position below the number of
      inserted documents is the rank of one of them. */
  ghost function KeyAt(keys: set<nat>, i: nat): (k: nat)
    requires i < |keys|
    ensures k in keys && Rank(keys, k) == i
    decreases keys
  {
    var m := MinOf(keys);
    var rest := keys - {m};
    if i == 0 then
      assert (set j | j in keys && j < m) == {};
      m
    else
      var k := KeyAt(rest, i - 1);
      assert (set j | j in keys && j < k) == {m} + (set j | j in rest && j < k);
      assert m !in (set j | j in rest && j < k);
      k
  }

  /** When the driver reports positions 0..n-1, the `i`-th id of the
      response is the id of the `i`-th input document. */
  lemma InsertedIdsContiguous(insertedIds: map<nat, Bson>, n: nat)
    requires forall i: nat :: i in insertedIds <==> i < n
    ensures var r := InOrder(insertedIds.Keys, insertedIds);
            |r| == n && forall i :: 0 <= i < n ==> r[i] == insertedIds[i]
  {
    RangeCard(insertedIds.Keys, n);
    forall i | 0 <= i < n ensures InOrder(insertedIds.Keys, insertedIds)[i] == insertedIds[i] {
      RankInRange(insertedIds.Keys, n, i);
      InsertedIdsByRank(insertedIds, i);
    }
  }

  /** Among the positions 0..n-1, exactly `i` come before position `i`. */
  lemma RankInRange(keys: set<nat>, n: nat, i: nat)
    requires forall j: nat :: j in keys <==> j < n
    requires i < n
    ensures Rank(keys, i) == i
  {
    var below := set j | j in keys && j < i;
    assert forall j: nat :: j in below <==> j < i;
    RangeCard(below, i);
  }

  /** The set of naturals below `n` has `n` elements. */
  lemma {:induction false} RangeCard(keys: set<nat>, n: nat)
    requires forall i: nat :: i in keys <==> i < n
    ensures |keys| == n
  {
    if n == 0 {
      assert keys == {};
    } else {
      var smaller := keys - {n - 1};
      assert forall i: nat :: i in smaller <==> i < n - 1;
      RangeCard(smaller, n - 1);
      assert keys == smaller + {n - 1};
    }
  }
}
