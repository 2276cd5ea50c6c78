/** The outcome policy of the HTTP routes (src/routes.rs). Every document
    route validates the namespace, fetches the collection handle, makes one
    call to the store and maps the store's answer to a response, a
    `not_found` or a `driver_error`. The store is an oracle: each handler is
    given the reply the store makes to the call it issues, and the
    correlation id a driver error would carry. A handler returns the state
    afterwards, the store call it issued (none when it stopped before the
    store) and the outcome. */
module Routes {
  import opened Common
  import opened Errors
  import opened Models
  import opened State

  const DocumentsEmpty: string := "documents must not be empty"
  const DocumentNotFound: string := "document not found"
  const NothingMatched: string := "no documents matched the filter"
  const DriverPrefix: string := "mongodb error: "

  /** The driver operation a route issues, on the handle it was given. */
  datatype StoreCall =
    | InsertOneCall(on: CollectionHandle, document: Document, options: Option<Options>)
    | InsertManyCall(on: CollectionHandle, documents: seq<Document>, options: Option<Options>)
    | FindOneCall(on: CollectionHandle, filter: Document, options: Option<Options>)
    | FindCall(on: CollectionHandle, filter: Document, options: Option<Options>)
    | UpdateOneCall(on: CollectionHandle, filter: Document, update: Document, upsertOptions: Option<UpsertOptions>)
    | UpdateManyCall(on: CollectionHandle, filter: Document, update: Document, upsertOptions: Option<UpsertOptions>)
    | ReplaceOneCall(on: CollectionHandle, filter: Document, replacement: Document, upsertOptions: Option<UpsertOptions>)
    | DeleteOneCall(on: CollectionHandle, filter: Document, options: Option<Options>)
    | DeleteManyCall(on: CollectionHandle, filter: Document, options: Option<Options>)
    | ListCollectionNamesCall(database: string)

  /** What the store answers: a result, or a driver error with its text. */
  datatype StoreReply<+X> = Ok(value: X) | DriverFailure(message: string)

  /** One step of a find cursor: the next document, or a stream error. The
      cursor is exhausted after its last step. */
  datatype CursorStep = Yield(document: Document) | StreamError(message: string)

  /** A handled request: the state afterwards, the store call issued, and
      the outcome. */
  datatype Exchange<+B> = Exchange(state: AppState, call: Option<StoreCall>, outcome: Result<B, ApiError>)

  /** Both fields are non-blank after trimming. */
  predicate NamespaceGiven(ns: NamespacePayload) {
    !AllWhitespace(ns.database) && !AllWhitespace(ns.collection)
  }

  /** The namespace a route works on once validation passed. */
  function Target(ns: NamespacePayload): NamespaceKey {
    NamespaceKey(Trim(ns.database), Trim(ns.collection))
  }

  /** The validation error for a namespace with a blank field, the database
      taking precedence. */
  function BlankNamespaceError(ns: NamespacePayload): ApiError {
    if AllWhitespace(ns.database) then Validation(DatabaseMissing) else Validation(CollectionMissing)
  }

  /** `namespace_fields`: the two names with surrounding whitespace cut off;
      each is empty exactly when the field is blank. */
  function NamespaceFields(ns: NamespacePayload): (r: (string, string))
    ensures TrimmedAt(ns.database, TrimOffset(ns.database), r.0)
    ensures TrimmedAt(ns.collection, TrimOffset(ns.collection), r.1)
    ensures r.0 != [] ==> !IsWhitespace(r.0[0]) && !IsWhitespace(r.0[|r.0| - 1])
    ensures r.1 != [] ==> !IsWhitespace(r.1[0]) && !IsWhitespace(r.1[|r.1| - 1])
    ensures r.0 == [] <==> AllWhitespace(ns.database)
    ensures r.1 == [] <==> AllWhitespace(ns.collection)
  {
    (Trim(ns.database), Trim(ns.collection))
  }

  /** `map_driver_error`: any driver failure becomes a 502 whose details are
      the driver's text behind a fixed prefix. */
  function MapDriverError(message: string, correlationId: string): (e: ApiError)
    ensures e.status == BadGateway && e.body.error == DriverCategory
    ensures e.body.details == DriverPrefix + message
    ensures e.body.correlationId == Some(correlationId)
    ensures WellFormed(e)
  {
    Driver(DriverPrefix + message, correlationId)
  }

  /** `ensure_non_empty`: passes exactly when neither field is blank; a blank
      database is reported ahead of a blank collection. */
  function EnsureNonEmpty(ns: NamespacePayload): (r: Result<(), ApiError>)
    ensures r.Success? <==> NamespaceGiven(ns)
    ensures r.Failure? ==> r.error == BlankNamespaceError(ns) && r.error.status == BadRequest
  {
    if Trim(ns.database) == [] then Failure(Validation(DatabaseMissing))
    else if Trim(ns.collection) == [] then Failure(Validation(CollectionMissing))
    else Success(())
  }

  /** `collection_from_state`: validation comes before resolution, so a
      blank field is a 400 even when a default is configured, and the
      defaults are never used on this path. A namespace that passes
      validation always resolves to its trimmed names. */
  function CollectionFromState(st: AppState, ns: NamespacePayload): (r: Result<Resolved, ApiError>)
    ensures r.Success? <==> NamespaceGiven(ns)
    ensures r.Failure? ==> r.error == BlankNamespaceError(ns) && r.error.status == BadRequest
    ensures r.Success? ==>
              && Grown(st, r.value.state, Target(ns))
              && r.value.state.collections[Target(ns)] == r.value.handle
              && (CacheBound(st.collections) ==>
                    CacheBound(r.value.state.collections) && r.value.handle == CollectionHandle(Target(ns)))
  {
    match EnsureNonEmpty(ns)
    case Failure(e) => Failure(e)
    case Success(_) => Collection(st, ns)
  }

  // ---------------------------------------------------------------------
  // What every document route has in common
  // ---------------------------------------------------------------------

  /** The route stopped at namespace validation: no store call, the state
      as it was, and the validation error. */
  ghost predicate Rejected<B>(st: AppState, ns: NamespacePayload, x: Exchange<B>) {
    x.call == None && x.state == st && x.outcome == Failure(BlankNamespaceError(ns))
  }

  /** The route reached the store: it issued one call, on the handle cached
      for the trimmed namespace, which is bound to that namespace whenever
      the cache was consistent to begin with. */
  ghost predicate Dispatched<B>(st: AppState, ns: NamespacePayload, x: Exchange<B>) {
    && x.call.Some?
    && !x.call.value.ListCollectionNamesCall?
    && Grown(st, x.state, Target(ns))
    && x.call.value.on == x.state.collections[Target(ns)]
    && (CacheBound(st.collections) ==>
          CacheBound(x.state.collections) && x.call.value.on == CollectionHandle(Target(ns)))
  }

  /** Every error a route reports is one the three constructors build. */
  ghost predicate Enveloped<B>(x: Exchange<B>) {
    x.outcome.Failure? ==> WellFormed(x.outcome.error)
  }

  /** The `upsert` option of an update or replace, `false` when unset. */
  function UpsertRequested(options: Option<UpsertOptions>): (r: bool)
    ensures r <==> options.Some? && options.value.upsert == Some(true)
  {
    match options
    case Some(o) => o.upsert.GetOr(false)
    case None => false
  }

  /** The single-document write matched nothing and created nothing, and no
      upsert was asked for: the condition under which update-one and
      replace-one answer `not_found`. */
  predicate NoEffect(result: UpdateResult, options: Option<UpsertOptions>) {
    result.matchedCount == 0 && result.upsertedId.None? && !UpsertRequested(options)
  }

  // ---------------------------------------------------------------------
  // The routes
  // ---------------------------------------------------------------------

  /** `insert_one`: the response carries the id the store assigned. */
  function InsertOne(st: AppState, req: InsertOneRequest, reply: StoreReply<InsertOneResult>, correlationId: string)
    : (x: Exchange<InsertOneResponse>)
    ensures Enveloped(x)
    ensures !NamespaceGiven(req.namespace) ==> Rejected(st, req.namespace, x)
    ensures NamespaceGiven(req.namespace) ==>
              && Dispatched(st, req.namespace, x)
              && x.call.value == InsertOneCall(x.call.value.on, req.document, req.options)
              && (reply.DriverFailure? ==> x.outcome == Failure(MapDriverError(reply.message, correlationId)))
              && (reply.Ok? ==> x.outcome == Success(InsertOneResponse(reply.value.insertedId)))
  {
    match CollectionFromState(st, req.namespace)
    case Failure(e) => Exchange(st, None, Failure(e))
    case Success(resolved) =>
      var call := InsertOneCall(resolved.handle, req.document, req.options);
      match reply
      case DriverFailure(m) => Exchange(resolved.state, Some(call), Failure(MapDriverError(m, correlationId)))
      case Ok(result) => Exchange(resolved.state, Some(call), Success(InsertOneResponse(result.insertedId)))
  }

  /** `insert_many`: an empty document list is refused before the namespace
      is even looked at; otherwise the response lists the inserted ids in
      input order. */
  method InsertMany(st: AppState, req: InsertManyRequest, reply: StoreReply<InsertManyResult>, correlationId: string)
    returns (x: Exchange<InsertManyResponse>)
    ensures Enveloped(x)
    ensures req.documents == [] ==> x == Exchange(st, None, Failure(Validation(DocumentsEmpty)))
    ensures req.documents != [] && !NamespaceGiven(req.namespace) ==> Rejected(st, req.namespace, x)
    ensures req.documents != [] && NamespaceGiven(req.namespace) ==>
              && Dispatched(st, req.namespace, x)
              && x.call.value == InsertManyCall(x.call.value.on, req.documents, req.options)
              && (reply.DriverFailure? ==> x.outcome == Failure(MapDriverError(reply.message, correlationId)))
              && (reply.Ok? ==>
                    && x.outcome.Success?
                    && x.outcome.value.insertedIds == InOrder(reply.value.insertedIds.Keys, reply.value.insertedIds))
  {
    if req.documents == [] {
      return Exchange(st, None, Failure(Validation(DocumentsEmpty)));
    }
    match CollectionFromState(st, req.namespace) {
      case Failure(e) =>
        x := Exchange(st, None, Failure(e));
      case Success(resolved) =>
        var call := InsertManyCall(resolved.handle, req.documents, req.options);
        match reply {
          case DriverFailure(m) =>
            x := Exchange(resolved.state, Some(call), Failure(MapDriverError(m, correlationId)));
          case Ok(result) =>
            var response := FromInsertedIds(result.insertedIds);
            x := Exchange(resolved.state, Some(call), Success(response));
        }
    }
  }

  /** `find_one`: no matching document is a 404, a match is returned as it
      is. */
  function FindOne(st: AppState, req: FindOneRequest, reply: StoreReply<Option<Document>>, correlationId: string)
    : (x: Exchange<FindOneResponse>)
    ensures Enveloped(x)
    ensures !NamespaceGiven(req.namespace) ==> Rejected(st, req.namespace, x)
    ensures NamespaceGiven(req.namespace) ==>
              && Dispatched(st, req.namespace, x)
              && x.call.value == FindOneCall(x.call.value.on, req.filter, req.options)
              && (reply.DriverFailure? ==> x.outcome == Failure(MapDriverError(reply.message, correlationId)))
              && (reply.Ok? ==> (x.outcome.Failure? <==> reply.value.None?))
              && (reply.Ok? && reply.value.None? ==> x.outcome == Failure(NotFound(DocumentNotFound)))
              && (reply.Ok? && reply.value.Some? ==> x.outcome == Success(FindOneResponse(reply.value.value)))
  {
    match CollectionFromState(st, req.namespace)
    case Failure(e) => Exchange(st, None, Failure(e))
    case Success(resolved) =>
      var call := FindOneCall(resolved.handle, req.filter, req.options);
      match reply
      case DriverFailure(m) => Exchange(resolved.state, Some(call), Failure(MapDriverError(m, correlationId)))
      case Ok(Some(document)) => Exchange(resolved.state, Some(call), Success(FindOneResponse(document)))
      case Ok(None) => Exchange(resolved.state, Some(call), Failure(NotFound(DocumentNotFound)))
  }

  /** Step `i` is the cursor's first stream error. */
  ghost predicate FirstError(steps: seq<CursorStep>, i: int) {
    && 0 <= i < |steps|
    && steps[i].StreamError?
    && forall j :: 0 <= j < i ==> steps[j].Yield?
  }

  /** The `try_next` loop of `find_many`: collects documents until the cursor
      is exhausted, and stops at the first stream error with its text. */
  function Drain(steps: seq<CursorStep>): (r: Result<seq<Document>, string>)
    ensures r.Success? <==> forall i :: 0 <= i < |steps| ==> steps[i].Yield?
    ensures r.Success? ==> |r.value| == |steps| && forall i :: 0 <= i < |steps| ==> r.value[i] == steps[i].document
    ensures r.Failure? ==> exists i :: FirstError(steps, i) && r.error == steps[i].message
  {
    if steps == [] then Success([])
    else
      match steps[0]
      case StreamError(m) =>
        assert FirstError(steps, 0);
        Failure(m)
      case Yield(d) =>
        var rest := steps[1..];
        assert forall i :: 1 <= i < |steps| ==> steps[i] == rest[i - 1];
        match Drain(rest)
        case Success(ds) =>
          var r := [d] + ds;
          assert forall i :: 1 <= i < |r| ==> r[i] == ds[i - 1];
          Success(r)
        case Failure(m) =>
          assert exists i :: FirstError(steps, i) && m == steps[i].message by {
            var k :| FirstError(rest, k) && m == rest[k].message;
            assert FirstError(steps, k + 1);
          }
          Failure(m)
  }

  /** `find_many`: every document the cursor yields, in cursor order; a
      failure to open the cursor or a stream error midway is a 502. */
  function FindMany(st: AppState, req: FindManyRequest, reply: StoreReply<seq<CursorStep>>, correlationId: string)
    : (x: Exchange<FindManyResponse>)
    ensures Enveloped(x)
    ensures !NamespaceGiven(req.namespace) ==> Rejected(st, req.namespace, x)
    ensures NamespaceGiven(req.namespace) ==>
              && Dispatched(st, req.namespace, x)
              && x.call.value == FindCall(x.call.value.on, req.filter, req.options)
              && (reply.DriverFailure? ==> x.outcome == Failure(MapDriverError(reply.message, correlationId)))
              && (reply.Ok? && Drain(reply.value).Success? ==>
                    x.outcome == Success(FindManyResponse(Drain(reply.value).value)))
              && (reply.Ok? && Drain(reply.value).Failure? ==>
                    x.outcome == Failure(MapDriverError(Drain(reply.value).error, correlationId)))
  {
    match CollectionFromState(st, req.namespace)
    case Failure(e) => Exchange(st, None, Failure(e))
    case Success(resolved) =>
      var call := FindCall(resolved.handle, req.filter, req.options);
      match reply
      case DriverFailure(m) => Exchange(resolved.state, Some(call), Failure(MapDriverError(m, correlationId)))
      case Ok(steps) =>
        match Drain(steps)
        case Success(documents) => Exchange(resolved.state, Some(call), Success(FindManyResponse(documents)))
        case Failure(m) => Exchange(resolved.state, Some(call), Failure(MapDriverError(m, correlationId)))
  }

  /** What find-many answers once the cursor is open: success exactly when
      no step is a stream error, with every document in cursor order;
      otherwise a 502 carrying the text of the first stream error. */
  lemma FindManyCollectsCursor(st: AppState, req: FindManyRequest, steps: seq<CursorStep>, correlationId: string)
    requires NamespaceGiven(req.namespace)
    ensures var x := FindMany(st, req, Ok(steps), correlationId);
            && (x.outcome.Success? <==> forall i :: 0 <= i < |steps| ==> steps[i].Yield?)
            && (x.outcome.Success? ==>
                  && |x.outcome.value.documents| == |steps|
                  && forall i :: 0 <= i < |steps| ==> x.outcome.value.documents[i] == steps[i].document)
            && (x.outcome.Failure? ==>
                  exists i :: FirstError(steps, i) && x.outcome.error == MapDriverError(steps[i].message, correlationId))
  {
    var x := FindMany(st, req, Ok(steps), correlationId);
    var d := Drain(steps);
    if d.Failure? {
      var i :| FirstError(steps, i) && d.error == steps[i].message;
      assert x.outcome.error == MapDriverError(steps[i].message, correlationId);
    }
  }

  /** `update_one`: `not_found` exactly when nothing matched, nothing was
      upserted and no upsert was asked for; otherwise the counts and the
      upserted id as the store reported them. */
  function UpdateOne(st: AppState, req: UpdateRequest, reply: StoreReply<UpdateResult>, correlationId: string)
    : (x: Exchange<UpdateResponse>)
    ensures Enveloped(x)
    ensures !NamespaceGiven(req.namespace) ==> Rejected(st, req.namespace, x)
    ensures NamespaceGiven(req.namespace) ==>
              && Dispatched(st, req.namespace, x)
              && x.call.value == UpdateOneCall(x.call.value.on, req.filter, req.update, req.options)
              && (reply.DriverFailure? ==> x.outcome == Failure(MapDriverError(reply.message, correlationId)))
              && (reply.Ok? ==> (x.outcome == Failure(NotFound(NothingMatched)) <==> NoEffect(reply.value, req.options)))
              && (reply.Ok? ==> x.outcome.Success? || x.outcome == Failure(NotFound(NothingMatched)))
              && (reply.Ok? && x.outcome.Success? ==>
                    && x.outcome.value.matchedCount == reply.value.matchedCount
                    && x.outcome.value.modifiedCount == reply.value.modifiedCount
                    && x.outcome.value.upsertedId == reply.value.upsertedId)
  {
    match CollectionFromState(st, req.namespace)
    case Failure(e) => Exchange(st, None, Failure(e))
    case Success(resolved) =>
      var call := UpdateOneCall(resolved.handle, req.filter, req.update, req.options);
      match reply
      case DriverFailure(m) => Exchange(resolved.state, Some(call), Failure(MapDriverError(m, correlationId)))
      case Ok(result) =>
        if result.matchedCount == 0 && result.upsertedId.None? && !UpsertRequested(req.options) then
          Exchange(resolved.state, Some(call), Failure(NotFound(NothingMatched)))
        else
          Exchange(resolved.state, Some(call), Success(FromUpdateResult(result)))
  }

  /** `update_many`: never `not_found`, even when nothing matched. */
  function UpdateMany(st: AppState, req: UpdateRequest, reply: StoreReply<UpdateResult>, correlationId: string)
    : (x: Exchange<UpdateResponse>)
    ensures Enveloped(x)
    ensures !NamespaceGiven(req.namespace) ==> Rejected(st, req.namespace, x)
    ensures NamespaceGiven(req.namespace) ==>
              && Dispatched(st, req.namespace, x)
              && x.call.value == UpdateManyCall(x.call.value.on, req.filter, req.update, req.options)
              && (reply.DriverFailure? ==> x.outcome == Failure(MapDriverError(reply.message, correlationId)))
              && (reply.Ok? ==>
                    && x.outcome.Success?
                    && x.outcome.value.matchedCount == reply.value.matchedCount
                    && x.outcome.value.modifiedCount == reply.value.modifiedCount
                    && x.outcome.value.upsertedId == reply.value.upsertedId)
  {
    match CollectionFromState(st, req.namespace)
    case Failure(e) => Exchange(st, None, Failure(e))
    case Success(resolved) =>
      var call := UpdateManyCall(resolved.handle, req.filter, req.update, req.options);
      match reply
      case DriverFailure(m) => Exchange(resolved.state, Some(call), Failure(MapDriverError(m, correlationId)))
      case Ok(result) => Exchange(resolved.state, Some(call), Success(FromUpdateResult(result)))
  }

  /** `replace_one`: the same `not_found` policy as `update_one`. */
  function ReplaceOne(st: AppState, req: ReplaceOneRequest, reply: StoreReply<UpdateResult>, correlationId: string)
    : (x: Exchange<UpdateResponse>)
    ensures Enveloped(x)
    ensures !NamespaceGiven(req.namespace) ==> Rejected(st, req.namespace, x)
    ensures NamespaceGiven(req.namespace) ==>
              && Dispatched(st, req.namespace, x)
              && x.call.value == ReplaceOneCall(x.call.value.on, req.filter, req.replacement, req.options)
              && (reply.DriverFailure? ==> x.outcome == Failure(MapDriverError(reply.message, correlationId)))
              && (reply.Ok? ==> (x.outcome == Failure(NotFound(NothingMatched)) <==> NoEffect(reply.value, req.options)))
              && (reply.Ok? ==> x.outcome.Success? || x.outcome == Failure(NotFound(NothingMatched)))
              && (reply.Ok? && x.outcome.Success? ==>
                    && x.outcome.value.matchedCount == reply.value.matchedCount
                    && x.outcome.value.modifiedCount == reply.value.modifiedCount
                    && x.outcome.value.upsertedId == reply.value.upsertedId)
  {
    match CollectionFromState(st, req.namespace)
    case Failure(e) => Exchange(st, None, Failure(e))
    case Success(resolved) =>
      var call := ReplaceOneCall(resolved.handle, req.filter, req.replacement, req.options);
      match reply
      case DriverFailure(m) => Exchange(resolved.state, Some(call), Failure(MapDriverError(m, correlationId)))
      case Ok(result) =>
        if result.matchedCount == 0 && result.upsertedId.None? && !UpsertRequested(req.options) then
          Exchange(resolved.state, Some(call), Failure(NotFound(NothingMatched)))
        else
          Exchange(resolved.state, Some(call), Success(FromUpdateResult(result)))
  }

  /** `delete_one`: `not_found` exactly when nothing was deleted. */
  function DeleteOne(st: AppState, req: DeleteRequest, reply: StoreReply<DeleteResult>, correlationId: string)
    : (x: Exchange<DeleteResponse>)
    ensures Enveloped(x)
    ensures !NamespaceGiven(req.namespace) ==> Rejected(st, req.namespace, x)
    ensures NamespaceGiven(req.namespace) ==>
              && Dispatched(st, req.namespace, x)
              && x.call.value == DeleteOneCall(x.call.value.on, req.filter, req.options)
              && (reply.DriverFailure? ==> x.outcome == Failure(MapDriverError(reply.message, correlationId)))
              && (reply.Ok? ==> (x.outcome == Failure(NotFound(NothingMatched)) <==> reply.value.deletedCount == 0))
              && (reply.Ok? && reply.value.deletedCount != 0 ==>
                    x.outcome == Success(DeleteResponse(reply.value.deletedCount)))
  {
    match CollectionFromState(st, req.namespace)
    case Failure(e) => Exchange(st, None, Failure(e))
    case Success(resolved) =>
      var call := DeleteOneCall(resolved.handle, req.filter, req.options);
      match reply
      case DriverFailure(m) => Exchange(resolved.state, Some(call), Failure(MapDriverError(m, correlationId)))
      case Ok(result) =>
        if result.deletedCount == 0 then
          Exchange(resolved.state, Some(call), Failure(NotFound(NothingMatched)))
        else
          Exchange(resolved.state, Some(call), Success(DeleteResponse(result.deletedCount)))
  }

  /** `delete_many`: never `not_found`, even when nothing was deleted. */
  function DeleteMany(st: AppState, req: DeleteRequest, reply: StoreReply<DeleteResult>, correlationId: string)
    : (x: Exchange<DeleteResponse>)
    ensures Enveloped(x)
    ensures !NamespaceGiven(req.namespace) ==> Rejected(st, req.namespace, x)
    ensures NamespaceGiven(req.namespace) ==>
              && Dispatched(st, req.namespace, x)
              && x.call.value == DeleteManyCall(x.call.value.on, req.filter, req.options)
              && (reply.DriverFailure? ==> x.outcome == Failure(MapDriverError(reply.message, correlationId)))
              && (reply.Ok? ==> x.outcome == Success(DeleteResponse(reply.value.deletedCount)))
  {
    match CollectionFromState(st, req.namespace)
    case Failure(e) => Exchange(st, None, Failure(e))
    case Success(resolved) =>
      var call := DeleteManyCall(resolved.handle, req.filter, req.options);
      match reply
      case DriverFailure(m) => Exchange(resolved.state, Some(call), Failure(MapDriverError(m, correlationId)))
      case Ok(result) => Exchange(resolved.state, Some(call), Success(DeleteResponse(result.deletedCount)))
  }

  /** `list_collections`: a blank database is a 400 before the store is
      reached. The check trims, but the name handed to the driver is the
      query parameter as sent, surrounding whitespace included. The cache
      is not involved. */
  function ListCollections(st: AppState, query: CollectionQuery, reply: StoreReply<seq<string>>, correlationId: string)
    : (x: Exchange<CollectionsResponse>)
    ensures Enveloped(x)
    ensures x.state == st
    ensures AllWhitespace(query.database) ==> x.call == None && x.outcome == Failure(Validation(DatabaseMissing))
    ensures !AllWhitespace(query.database) ==>
              && x.call == Some(ListCollectionNamesCall(query.database))
              && (reply.DriverFailure? ==> x.outcome == Failure(MapDriverError(reply.message, correlationId)))
              && (reply.Ok? ==> x.outcome == Success(CollectionsResponse(reply.value)))
  {
    if Trim(query.database) == [] then
      Exchange(st, None, Failure(Validation(DatabaseMissing)))
    else
      var call := ListCollectionNamesCall(query.database);
      match reply
      case DriverFailure(m) => Exchange(st, Some(call), Failure(MapDriverError(m, correlationId)))
      case Ok(names) => Exchange(st, Some(call), Success(CollectionsResponse(names)))
  }

  // ---------------------------------------------------------------------
  // Properties across routes
  // ---------------------------------------------------------------------

  /** The routes never consult the configured defaults: two states that
      differ only in their defaults give the same verdict and, on success,
      the same handle and the same cache. */
  lemma RoutesIgnoreDefaults(st: AppState, ns: NamespacePayload, database: Option<string>, collection: Option<string>)
    ensures var other := st.(defaultDatabase := database, defaultCollection := collection);
            var a := CollectionFromState(st, ns);
            var b := CollectionFromState(other, ns);
            && (a.Success? <==> b.Success?)
            && (a.Failure? ==> a.error == b.error)
            && (a.Success? ==> a.value.handle == b.value.handle
                                && a.value.state.collections == b.value.state.collections)
  {
  }

  /** With defaults configured, as the integration tests configure them, a
      request whose database or collection is empty is still a 400. */
  lemma BlankFieldRejectedDespiteDefaults(document: Document, reply: StoreReply<InsertOneResult>, correlationId: string)
    ensures var st := AppState(Some("test_db"), Some("test_coll"), map[]);
            var noDatabase := InsertOne(st, InsertOneRequest(NamespacePayload("", "test"), document, None), reply, correlationId);
            var noCollection := InsertOne(st, InsertOneRequest(NamespacePayload("test", ""), document, None), reply, correlationId);
            && noDatabase.call == None && noDatabase.outcome == Failure(Validation(DatabaseMissing))
            && noCollection.call == None && noCollection.outcome == Failure(Validation(CollectionMissing))
            && Status(noDatabase.outcome.error) == BadRequest
            && Status(noCollection.outcome.error) == BadRequest
  {
    assert !AllWhitespace("test") by { assert !IsWhitespace("test"[0]); }
  }

  /** `namespace_fields` on `"  db  "` and `"  coll  "` gives `db` and
      `coll`. */
  lemma NamespaceFieldsTrims()
    ensures NamespaceFields(NamespacePayload("  db  ", "  coll  ")) == ("db", "coll")
  {
    TrimDb();
    TrimColl();
  }

  lemma TrimDb()
    ensures Trim("  db  ") == "db"
  {
    assert "  db  " == "  " + "db" + "  ";
    TrimExample("  db  ", "db");
  }

  lemma TrimColl()
    ensures Trim("  coll  ") == "coll"
  {
    assert "  coll  " == "  " + "coll" + "  ";
    TrimExample("  coll  ", "coll");
  }

  /** A route that reached the store left the namespace's handle cached, so
      the next request for the same namespace finds it there and leaves the
      cache as it is. */
  lemma DispatchCachesHandle(st: AppState, ns: NamespacePayload, ns': NamespacePayload)
    requires NamespaceGiven(ns)
    requires Trim(ns'.database) == Trim(ns.database) && Trim(ns'.collection) == Trim(ns.collection)
    ensures var first := CollectionFromState(st, ns);
            var second := CollectionFromState(first.value.state, ns');
            && second.Success?
            && second.value.state == first.value.state
            && second.value.handle == first.value.handle
  {
    var first := CollectionFromState(st, ns);
    assert AllWhitespace(ns.database) <==> AllWhitespace(ns'.database);
    assert AllWhitespace(ns.collection) <==> AllWhitespace(ns'.collection);
    assert Target(ns') == Target(ns);
    assert ResolveNamespace(first.value.state, ns') == Success(Target(ns));
  }
}
