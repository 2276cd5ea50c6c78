/** Shared application state (src/state.rs): the configured default
    namespace, and the cache of collection handles keyed by namespace.
    The source keeps the cache in a concurrent map behind an `Arc`; here the
    state is a value that each operation returns updated, and requests are
    served one after another. */
module State {
  import opened Common
  import opened Errors
  import opened Models
  import Configuration

  /** `NamespaceKey`: a (database, collection) pair. The source's `PartialEq`
      and `Hash` look only at the contents of the two strings, which is what
      datatype equality is. */
  datatype NamespaceKey = NamespaceKey(database: string, collection: string)

  /** A driver `Collection<Document>` handle, reduced to the namespace it is
      bound to. */
  datatype CollectionHandle = CollectionHandle(namespace: NamespaceKey)

  type Cache = map<NamespaceKey, CollectionHandle>

  /** `AppState`, without the driver client. */
  datatype AppState = AppState(defaultDatabase: Option<string>, defaultCollection: Option<string>, collections: Cache)

  /** The outcome of a get-or-insert on the cache: the cache afterwards and
      the handle handed out. */
  datatype Lookup = Lookup(cache: Cache, handle: CollectionHandle)

  /** A successful `AppState::collection`: the state afterwards and the
      handle. */
  datatype Resolved = Resolved(state: AppState, handle: CollectionHandle)

  const DatabaseMissing: string := "database must be provided"
  const CollectionMissing: string := "collection must be provided"

  /** Every cached handle is bound to the namespace it is cached under. */
  ghost predicate CacheBound(c: Cache) {
    forall k :: k in c ==> c[k].namespace == k
  }

  /** `st'` is `st` with `key` cached: the defaults are the same, the key set
      grew by `key` alone, and no entry already present changed. */
  ghost predicate Grown(st: AppState, st': AppState, key: NamespaceKey) {
    && st'.defaultDatabase == st.defaultDatabase
    && st'.defaultCollection == st.defaultCollection
    && st'.collections.Keys == st.collections.Keys + {key}
    && (forall k :: k in st.collections ==> st'.collections[k] == st.collections[k])
  }

  /** `AppState::new`: the defaults come from the configuration and the cache
      starts empty. */
  function NewAppState(config: Configuration.Config): (st: AppState)
    ensures st.defaultDatabase == config.defaultDatabase
    ensures st.defaultCollection == config.defaultCollection
    ensures |st.collections| == 0 && CacheBound(st.collections)
  {
    AppState(config.defaultDatabase, config.defaultCollection, map[])
  }

  /** One field of `resolve_namespace`: a field that is not blank resolves
      to its trimmed text; a blank one to the configured default, verbatim,
      or else to a validation error with the given details. */
  function ResolveField(raw: string, default: Option<string>, missing: string): (r: Result<string, ApiError>)
    ensures !AllWhitespace(raw) ==> r == Success(Trim(raw))
    ensures AllWhitespace(raw) && default.Some? ==> r == Success(default.value)
    ensures AllWhitespace(raw) && default.None? ==> r == Failure(Validation(missing))
  {
    var t := Trim(raw);
    if t == [] then
      match default
      case Some(d) => Success(d)
      case None => Failure(Validation(missing))
    else
      Success(t)
  }

  /** `AppState::resolve_namespace`. The database is resolved first, so when
      both fields are blank and neither has a default the database error is
      the one reported. */
  function ResolveNamespace(st: AppState, ns: NamespacePayload): (r: Result<NamespaceKey, ApiError>)
    ensures r.Success? <==> (!AllWhitespace(ns.database) || st.defaultDatabase.Some?)
                            && (!AllWhitespace(ns.collection) || st.defaultCollection.Some?)
    ensures r.Success? && !AllWhitespace(ns.database) ==> r.value.database == Trim(ns.database)
    ensures r.Success? && AllWhitespace(ns.database) ==> r.value.database == st.defaultDatabase.value
    ensures r.Success? && !AllWhitespace(ns.collection) ==> r.value.collection == Trim(ns.collection)
    ensures r.Success? && AllWhitespace(ns.collection) ==> r.value.collection == st.defaultCollection.value
    ensures AllWhitespace(ns.database) && st.defaultDatabase.None? ==> r == Failure(Validation(DatabaseMissing))
    ensures r.Failure? && (!AllWhitespace(ns.database) || st.defaultDatabase.Some?) ==>
              r == Failure(Validation(CollectionMissing))
  {
    match ResolveField(ns.database, st.defaultDatabase, DatabaseMissing)
    case Failure(e) => Failure(e)
    case Success(database) =>
      match ResolveField(ns.collection, st.defaultCollection, CollectionMissing)
      case Failure(e) => Failure(e)
      case Success(collection) => Success(NamespaceKey(database, collection))
  }

  /** `AppStateInner::collection_for`, a get-or-insert: on a hit the cached
      handle comes back and the cache is unchanged; on a miss a handle bound
      to `key` is built and added as the one new entry. */
  function CollectionFor(cache: Cache, key: NamespaceKey): (r: Lookup)
    ensures key in r.cache && r.cache[key] == r.handle
    ensures r.cache.Keys == cache.Keys + {key}
    ensures forall k :: k in cache ==> r.cache[k] == cache[k]
    ensures key in cache ==> r.cache == cache
    ensures key !in cache ==> |r.cache| == |cache| + 1 && r.handle.namespace == key
    ensures CacheBound(cache) ==> CacheBound(r.cache) && r.handle.namespace == key
  {
    if key in cache then
      Lookup(cache, cache[key])
    else
      var handle := CollectionHandle(key);
      Lookup(cache[key := handle], handle)
  }

  /** `AppState::collection`: resolve the namespace, then get or insert its
      handle. A resolution error leaves the state as it was. */
  function Collection(st: AppState, ns: NamespacePayload): (r: Result<Resolved, ApiError>)
    ensures r.Success? <==> ResolveNamespace(st, ns).Success?
    ensures r.Failure? ==> r.error == ResolveNamespace(st, ns).error
    ensures r.Success? ==>
              var key := ResolveNamespace(st, ns).value;
              && Grown(st, r.value.state, key)
              && r.value.state.collections[key] == r.value.handle
              && (key in st.collections ==> r.value.state == st)
              && (CacheBound(st.collections) ==>
                    CacheBound(r.value.state.collections) && r.value.handle.namespace == key)
  {
    match ResolveNamespace(st, ns)
    case Failure(e) => Failure(e)
    case Success(key) =>
      var found := CollectionFor(st.collections, key);
      Success(Resolved(st.(collections := found.cache), found.handle))
  }

  // ---------------------------------------------------------------------
  // Properties of resolution and caching
  // ---------------------------------------------------------------------

  /** Namespaces that trim to the same text are the same namespace: asking
      for the second right after the first hands out the same handle and
      leaves the cache as the first left it. */
  lemma SameNamespaceSameHandle(st: AppState, a: NamespacePayload, b: NamespacePayload)
    requires Trim(a.database) == Trim(b.database) && Trim(a.collection) == Trim(b.collection)
    requires Collection(st, a).Success?
    ensures var first := Collection(st, a).value;
            var second := Collection(first.state, b);
            && second.Success?
            && second.value.handle == first.handle
            && second.value.state == first.state
  {
  }

  /** Namespaces that resolve to different keys get handles bound to
      different namespaces, whichever is asked for first. */
  lemma DistinctNamespacesDistinctHandles(st: AppState, a: NamespacePayload, b: NamespacePayload)
    requires CacheBound(st.collections)
    requires Collection(st, a).Success?
    requires ResolveNamespace(st, b).Success?
    requires ResolveNamespace(st, a).value != ResolveNamespace(st, b).value
    ensures var first := Collection(st, a).value;
            var second := Collection(first.state, b);
            && second.Success?
            && second.value.handle.namespace != first.handle.namespace
  {
    var first := Collection(st, a).value;
    assert ResolveNamespace(first.state, b) == ResolveNamespace(st, b);
  }

  /** Without defaults, trimmed names that differ give handles bound to
      different namespaces. */
  lemma DistinctNamesDistinctHandles(st: AppState, a: NamespacePayload, b: NamespacePayload)
    requires CacheBound(st.collections)
    requires !AllWhitespace(a.database) && !AllWhitespace(a.collection)
    requires !AllWhitespace(b.database) && !AllWhitespace(b.collection)
    requires Trim(a.database) != Trim(b.database) || Trim(a.collection) != Trim(b.collection)
    ensures Collection(st, a).Success?
    ensures var first := Collection(st, a).value;
            var second := Collection(first.state, b);
            && second.Success?
            && second.value.handle.namespace != first.handle.namespace
  {
    DistinctNamespacesDistinctHandles(st, a, b);
  }

  /** A namespace whose fields were both given resolves to trimmed names,
      and sending those names again resolves to the same namespace: the
      resolved form is a fixed point of resolution. */
  lemma ResolvedNamespaceIsFixed(st: AppState, ns: NamespacePayload)
    requires !AllWhitespace(ns.database) && !AllWhitespace(ns.collection)
    ensures ResolveNamespace(st, ns).Success?
    ensures var k := ResolveNamespace(st, ns).value;
            ResolveNamespace(st, NamespacePayload(k.database, k.collection)) == Success(k)
  {
    TrimIdempotent(ns.database);
    TrimIdempotent(ns.collection);
  }

  /** Blank fields take the configured defaults: with defaults `app` and
      `users`, a payload of spaces resolves to `app.users`. */
  lemma DefaultsFillBlankFields()
    ensures var st := AppState(Some("app"), Some("users"), map[]);
            var r := Collection(st, NamespacePayload("   ", "   "));
            r.Success? && r.value.handle.namespace == NamespaceKey("app", "users")
  {
    assert AllWhitespace("   ");
  }

  /** Surrounding whitespace is dropped: `"  test_db  "` and
      `"  test_coll  "` resolve to `test_db.test_coll`. */
  lemma ResolutionTrims()
    ensures var st := AppState(None, None, map[]);
            var r := Collection(st, NamespacePayload("  test_db  ", "  test_coll  "));
            r.Success? && r.value.handle.namespace == NamespaceKey("test_db", "test_coll")
  {
    TrimTestDb();
    TrimTestColl();
    var st := AppState(None, None, map[]);
    assert ResolveNamespace(st, NamespacePayload("  test_db  ", "  test_coll  "))
        == Success(NamespaceKey("test_db", "test_coll"));
  }

  lemma TrimTestDb()
    ensures Trim("  test_db  ") == "test_db" && !AllWhitespace("  test_db  ")
  {
    var db := "  test_db  ";
    assert db == "  " + "test_db" + "  ";
    TrimExample(db, "test_db");
  }

  lemma TrimTestColl()
    ensures Trim("  test_coll  ") == "test_coll" && !AllWhitespace("  test_coll  ")
  {
    var coll := "  test_coll  ";
    assert coll == "  " + "test_coll" + "  ";
    TrimExample(coll, "test_coll");
  }

  /** `Trim("  " + t + "  ") == t` for a text `t` that neither starts nor
      ends with whitespace. */
  lemma TrimExample(s: string, t: string)
    requires |t| > 0 && s == "  " + t + "  "
    requires !IsWhitespace(t[0]) && !IsWhitespace(t[|t| - 1])
    ensures Trim(s) == t
  {
    assert s[2..2 + |t|] == t;
    assert TrimmedAt(s, 2, t);
    TrimUnique(s, 2, t);
  }

  /** Without defaults a blank database is a 400, and it is reported ahead of
      a blank collection. */
  lemma BlankDatabaseRejected()
    ensures var st := AppState(None, None, map[]);
            && Collection(st, NamespacePayload("", "users")) == Failure(Validation(DatabaseMissing))
            && Collection(st, NamespacePayload(" ", " ")) == Failure(Validation(DatabaseMissing))
            && Status(Validation(DatabaseMissing)) == BadRequest
  {
    assert AllWhitespace(" ");
  }

  /** Defaults are not trimmed: a configured default made of spaces is used
      as it is. */
  lemma BlankDefaultUsedVerbatim()
    ensures var st := AppState(Some("  "), Some("c"), map[]);
            var r := ResolveNamespace(st, NamespacePayload("", ""));
            r == Success(NamespaceKey("  ", "c")) && AllWhitespace(r.value.database)
  {
  }

  // ---------------------------------------------------------------------
  // A run of requests
  // ---------------------------------------------------------------------

  /** The state after serving `requests` in order; a request whose namespace
      does not resolve leaves the state as it was. */
  function Serve(st: AppState, requests: seq<NamespacePayload>): AppState
    decreases |requests|
  {
    if requests == [] then st
    else
      match Collection(st, requests[0])
      case Success(resolved) => Serve(resolved.state, requests[1..])
      case Failure(_) => Serve(st, requests[1..])
  }

  /** Over a run of requests the defaults never change, no cached entry is
      ever replaced or dropped, every handle stays bound to its key, and
      every namespace that resolved ends up cached. */
  lemma {:induction false} ServeKeepsCache(st: AppState, requests: seq<NamespacePayload>)
    ensures var end := Serve(st, requests);
            && end.defaultDatabase == st.defaultDatabase
            && end.defaultCollection == st.defaultCollection
            && st.collections.Keys <= end.collections.Keys
            && (forall k :: k in st.collections ==> end.collections[k] == st.collections[k])
            && (CacheBound(st.collections) ==> CacheBound(end.collections))
            && (forall i :: 0 <= i < |requests| && ResolveNamespace(st, requests[i]).Success? ==>
                  ResolveNamespace(st, requests[i]).value in end.collections)
    decreases |requests|
  {
    if requests != [] {
      var rest := requests[1..];
      var next := match Collection(st, requests[0])
                  case Success(resolved) => resolved.state
                  case Failure(_) => st;
      assert Serve(st, requests) == Serve(next, rest);
      ServeKeepsCache(next, rest);
      var end := Serve(st, requests);
      assert next.defaultDatabase == st.defaultDatabase && next.defaultCollection == st.defaultCollection;
      forall i | 0 <= i < |requests| && ResolveNamespace(st, requests[i]).Success?
        ensures ResolveNamespace(st, requests[i]).value in end.collections
      {
        if i == 0 {
          assert ResolveNamespace(st, requests[0]).value in next.collections;
        } else {
          assert requests[i] == rest[i - 1];
          assert ResolveNamespace(next, rest[i - 1]) == ResolveNamespace(st, requests[i]);
        }
      }
    }
  }
}
