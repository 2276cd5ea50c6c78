# MongoDB HTTP gateway: decision layers

This project models the logic of a small HTTP gateway that sits in front of a
MongoDB deployment. It leaves out the HTTP and driver plumbing and keeps the
parts that decide what happens to a request:

- **Configuration** (`Configuration`, from `src/config.rs`). `Config::from_env`
  is modelled as a pure function of the environment, a map from variable
  name to value. It covers:
  - the required `MONGODB_URI`;
  - the optional defaults, log level and bind address;
  - unsigned decimal parsing into `u32`/`u64` the way Rust's `str::parse`
    does it;
  - the order in which failures are reported.
- **Namespace resolution and the handle cache** (`State`, from
  `src/state.rs`).
  - Resolution trims both names. A blank name falls back to the configured
    default or becomes a validation error, and the database is checked
    first.
  - `collection_for` is a get-or-insert on a map keyed by the
    (database, collection) pair. A handle is reduced to the namespace it is
    bound to.
- **Route outcome policy** (`Routes`, from `src/routes.rs`).
  - Each of the ten routes validates its input, makes one store call and
    maps the store's answer to a response, a `not_found` or a
    `driver_error`.
  - The store is an oracle. A route is given the reply the store makes
    (a result value or a driver failure) and the correlation id a driver
    error would carry.
  - A route returns the state afterwards, the store call it issued (`None`
    when it stopped before the store) and the outcome.
- **Error envelope** (`Errors`, from `src/error.rs`). There are three
  constructors. Each fixes the status code, the category string and whether
  a correlation id is present.
- **Response shaping and request defaults** (`Models`, from
  `src/models.rs`).
  - Insert-many's index-to-id map is turned into the list of ids in input
    order.
  - An update result is copied into an update response.
  - A missing filter becomes the empty document.
- **Shared vocabulary** (`Common`): `Option`, `Result`, and Rust's
  `str::trim` over the Unicode White_Space property.

Two behaviours of the code worth knowing, both modelled as written:

- A configured default is used verbatim, so a resolved name is not always
  trimmed: a default made of spaces resolves as it is
  (`State.BlankDefaultUsedVerbatim`). Through the routes this never shows,
  because `collection_from_state` validates before it resolves, so the
  defaults are never used on any route (`Routes.RoutesIgnoreDefaults`).
- `list_collections` trims the database name only for the blank check and
  sends the name to the driver as it arrived, surrounding whitespace
  included (src/routes.rs:467). `Routes.ListCollections` states exactly
  that.

## Model

| member | source | states |
|---|---|---|
| Common.Trim | src/state.rs:89-107 | `str::trim`: the result is a slice of the input with only whitespace cut off on either side, does not start or end with whitespace, and is empty exactly when the input is all whitespace |
| Common.TrimUnique | src/state.rs:89-107 | any whitespace-bounded slice whose ends are not whitespace is the trimmed form, so the trimmed form is unique |
| Common.TrimIdempotent | src/state.rs:89-107 | trimming an already trimmed name changes nothing |
| Errors.Validation | src/error.rs:22-31 | status 400, category `validation_error`, the given details, no correlation id |
| Errors.NotFound | src/error.rs:33-42 | status 404, category `not_found`, the given details, no correlation id |
| Errors.Driver | src/error.rs:44-54 | status 502, category `driver_error`, the given details, a correlation id always present |
| Errors.Status | src/error.rs:56-58 | for an envelope the constructors build, the status is 400, 404 or 502 exactly when the category is `validation_error`, `not_found` or `driver_error` |
| Errors.IntoResponse | src/error.rs:56-65 | the response carries the status fixed at construction and the body unchanged; for an envelope the constructors build, the status and the category determine each other |
| Errors.CorrelationIdIffDriver | src/error.rs:21-54 | a correlation id is present exactly when the category is `driver_error` |
| Errors.StatusDeterminesCategory | src/error.rs:21-54 | two envelopes have the same status exactly when they have the same category |
| Models.DecodeFindOne | src/models.rs:46-54 | a missing find-one filter is the empty document, missing options are `None`, and fields that are present are kept |
| Models.DecodeFindMany | src/models.rs:61-69 | the same defaults for find-many |
| Models.FromParts | src/models.rs:137-143 | matched count, modified count and upserted id are copied unchanged |
| Models.FromUpdateResult | src/models.rs:128-135 | the response reports exactly the counts and the upserted id of the driver's result |
| Models.FromInsertedIds | src/models.rs:151-157 | the response has one id per map entry, and it is the list of ids ordered by ascending input index |
| Models.InsertedIdsByRank | src/models.rs:151-157 | the id inserted at index `k` sits at the position equal to the number of inserted indices below `k` |
| Models.RankStrictlyMonotone | src/models.rs:153 | a smaller index gets an earlier position, so the output is ordered by index |
| Models.InsertedIdsPermutation | src/models.rs:152-155 | the output is a permutation of the map's entries: each index is sent to a distinct position holding its id, and every position is the image of some index, so an id reported for several indices appears that many times |
| Models.InsertedIdsContiguous | src/models.rs:175-188 | when the indices are 0..n-1, position `i` holds the id of input document `i` |
| Configuration.ParseUnsigned | src/config.rs:72-75 | `str::parse` into an unsigned type succeeds exactly on one optional `+` followed by one or more ASCII digits whose value is in range, and yields that value; an empty text is the `Empty` error |
| Configuration.ParseDecimalRoundTrip | src/config.rs:72-75 | every in-range value parses back from its decimal text, with or without a leading `+` |
| Configuration.ParseRejectsSignAndSpace | src/config.rs:72-75 | a leading `-` or any whitespace makes the parse fail |
| Configuration.ParseOutOfRange | src/config.rs:72-75 | the decimal text of a value outside the type fails with `PosOverflow` |
| Configuration.Lookup | src/config.rs:31 | `env::var(..).ok()` is the value exactly when the variable is set |
| Configuration.NonEmptyVar | src/config.rs:31-36 | an optional text variable that is empty counts as unset; any other value is kept verbatim, not trimmed |
| Configuration.GetRequired | src/config.rs:63-68 | a required variable succeeds exactly when set and non-empty, with its value; otherwise `MissingEnv(key)` |
| Configuration.ParseOptional | src/config.rs:70-92 | an unset or empty numeric variable is `None`; otherwise it succeeds exactly when it parses in range, with that value, and fails with `InvalidEnv` naming the key |
| Configuration.ParseOptionalU32 | src/config.rs:70-78 | the value, when present, is below 2^32; a failure names the key; success exactly when the variable is acceptable for `u32` |
| Configuration.ParseOptionalU64 | src/config.rs:84-92 | the value, when present, is below 2^64; a failure names the key; success exactly when the variable is acceptable for `u64` |
| Configuration.ParseOptionalDuration | src/config.rs:80-82 | the same verdict as the `u64` parse, with the number read as milliseconds |
| Configuration.FromEnv | src/config.rs:28-60 | success exactly when the URI is set and non-empty and each numeric variable is acceptable; otherwise the first failing variable in read order is reported, `MissingEnv` for the URI and `InvalidEnv` for the numbers; on success each field reflects its variable and the bind address defaults only when unset |
| Configuration.FromEnvMissingUri | src/config.rs:29 | an unset or empty `MONGODB_URI` fails with `MissingEnv("MONGODB_URI")` whatever else is set, and no other variable can produce `MissingEnv` |
| Configuration.FromEnvFirstFailure | src/config.rs:28-43 | `from_env` fails exactly when some variable fails its check, and the error names the first failing one in the order URI, pool min, pool max, connect timeout, server-selection timeout |
| Configuration.FromEnvFields | src/config.rs:28-60 | on success each field reflects its variable: the URI verbatim, defaults and log level verbatim or `None` when empty, numbers as parsed, timeouts in milliseconds, and the bind address as set (even empty) or `127.0.0.1:3000` only when unset |
| State.NewAppState | src/state.rs:64-74 | the defaults come from the configuration and the cache starts empty and consistent |
| State.ResolveField | src/state.rs:89-97 | a non-blank field resolves to its trimmed text; a blank one to the configured default, verbatim, or else to a validation error |
| State.ResolveNamespace | src/state.rs:88-110 | resolution succeeds exactly when each field is non-blank or has a default, with the trimmed name or the default in each place; when both fail the database error wins |
| State.ResolvedNamespaceIsFixed | src/state.rs:89-107 | when both fields are given, sending the resolved names again resolves to the same namespace |
| State.CollectionFor | src/state.rs:114-126 | after the call the key is cached with the returned handle; a hit leaves the cache unchanged; a miss adds exactly one entry bound to the key; no other entry changes |
| State.Collection | src/state.rs:80-86 | succeeds exactly when resolution does, with its error otherwise; on success the resolved namespace is cached, the state only grew, and the handle is bound to that namespace |
| State.SameNamespaceSameHandle | src/state.rs:188-220 | namespaces that trim to the same names get the same handle, and the second request leaves the cache unchanged |
| State.DistinctNamespacesDistinctHandles | src/state.rs:222-253 | namespaces resolving to different keys get handles bound to different namespaces |
| State.DistinctNamesDistinctHandles | src/state.rs:222-253 | without relying on defaults, different trimmed names give handles bound to different namespaces |
| State.DefaultsFillBlankFields | src/state.rs:160-186 | with defaults `app` and `users`, a payload of spaces resolves to `app.users` |
| State.ResolutionTrims | src/state.rs:255-280 | `"  test_db  "` and `"  test_coll  "` resolve to `test_db.test_coll` |
| State.BlankDatabaseRejected | src/state.rs:133-158 | without defaults a blank database is a 400, reported ahead of a blank collection |
| State.BlankDefaultUsedVerbatim | src/state.rs:89-97 | a default made of spaces is used as it is, untrimmed |
| State.ServeKeepsCache | src/state.rs:113-126 | over any run of requests the defaults stay fixed, no cached entry is replaced or dropped, handles stay bound to their keys, and every namespace that resolved ends up cached |
| Routes.NamespaceFields | src/routes.rs:40-42 | both names with only surrounding whitespace cut off, each empty exactly when the field is blank |
| Routes.NamespaceFieldsTrims | src/routes.rs:590-596 | `"  db  "` and `"  coll  "` give `db` and `coll` |
| Routes.MapDriverError | src/routes.rs:125-127 | a driver failure is a 502 `driver_error` with details `mongodb error: ` followed by the driver's text, and a correlation id |
| Routes.EnsureNonEmpty | src/routes.rs:129-137 | passes exactly when neither trimmed field is empty; a blank database is reported ahead of a blank collection |
| Routes.CollectionFromState | src/routes.rs:139-145 | a blank field is a 400 whatever defaults are configured; otherwise the trimmed namespace is cached and its handle returned |
| Routes.UpsertRequested | src/routes.rs:290 | the upsert flag counts only when it is present and `true` |
| Routes.InsertOne | src/routes.rs:147-171 | a blank namespace is rejected before the store with the state unchanged; otherwise one insert-one on the namespace's handle, a driver failure is a 502, and success returns the assigned id |
| Routes.InsertMany | src/routes.rs:173-207 | an empty document list is a 400 before namespace validation and before any store call; otherwise as insert-one, and the ids come back in input order |
| Routes.FindOne | src/routes.rs:209-238 | no matching document is a 404 `document not found`; a match is returned as it is; a driver failure is a 502 |
| Routes.Drain | src/routes.rs:256-261 | the cursor loop succeeds exactly when no step is a stream error, returning every document in cursor order; otherwise it stops at the first stream error with its text |
| Routes.FindMany | src/routes.rs:240-266 | a blank namespace is rejected before the store; otherwise one find on the namespace's handle, a failure to open the cursor is a 502, and the cursor is drained into the response or into a 502 |
| Routes.FindManyCollectsCursor | src/routes.rs:256-262 | once the cursor is open, success exactly when no step is a stream error, with every document in cursor order; otherwise a 502 with the text of the first stream error |
| Routes.UpdateOne | src/routes.rs:268-306 | `not_found` exactly when nothing matched, nothing was upserted and upsert was not requested; otherwise the store's counts and upserted id |
| Routes.UpdateMany | src/routes.rs:308-336 | never `not_found`: any store result, zero counts included, becomes a success copying the counts |
| Routes.ReplaceOne | src/routes.rs:338-376 | the same `not_found` policy as update-one |
| Routes.DeleteOne | src/routes.rs:378-414 | `not_found` exactly when nothing was deleted; otherwise the deleted count |
| Routes.DeleteMany | src/routes.rs:416-445 | never `not_found`: the deleted count, zero included |
| Routes.ListCollections | src/routes.rs:447-481 | a blank database is a 400 before the store; otherwise one call with the database name as sent, a driver failure is a 502, and the names come back as the store gave them; the state is never touched |
| Routes.RoutesIgnoreDefaults | src/routes.rs:143-144 | two states that differ only in their defaults give the same verdict, handle and cache on every route |
| Routes.BlankFieldRejectedDespiteDefaults | tests/integration_test.rs:722-774 | with defaults `test_db`/`test_coll` configured, an empty database or collection on insert-one is still a 400 and no store call is made |
| Routes.DispatchCachesHandle | src/routes.rs:139-145 | after a route reaches the store, a second request for the same trimmed namespace reuses the handle and leaves the cache unchanged |

## Left out

- HTTP routing, the JSON extractors and serde (de)serialisation. Requests are already-decoded records. Responses are values, not JSON.
- The MongoDB driver, its client, handles and cursors. These are foreign code. Each store call is represented by the call record and the reply the store makes; a cursor is a sequence of steps.
- The `tracing` helpers `log_namespace_received`, `log_namespace_success` and `log_request_failure`. They only log. `log_request_failure` returns its error unchanged, so the model passes the error straight through.
- The random UUID behind a driver error's correlation id. It is nondeterministic, so the caller supplies it as a parameter.
- The concurrent map behind the handle cache. Requests are served one at a time, so races between two misses on the same key are not modelled.
- `src/main.rs` and `tests/common/mod.rs`. They hold client options, the listener and test setup, which are input/output glue.
- `std::time::Duration`. A duration is represented by its millisecond count alone.
- BSON values beyond the few variants the gateway's callers use. Driver options are opaque documents, except for the `upsert` flag.
- Configuration: a variable whose value is not valid Unicode is treated like an unset one. The source treats both alike in every read, so nothing is lost. The environment is a map of Unicode strings.
- Configuration.ParseUnsigned: the contract fixes the error kind only for the empty text. `ParseOutOfRange` covers an out-of-range decimal. When a text mixes invalid digits and overflow, the body reproduces which error comes first, but no contract states it.
- Models.FromInsertedIds: indices are unbounded naturals rather than `usize`. Nothing in the gateway depends on their width.
- Routes.InsertOne and the other document routes: the call is stated to be on the handle bound to the trimmed namespace only when the cache was consistent beforehand (`State.CacheBound`). That always holds for a state built by `NewAppState` and served by `Serve`, as `ServeKeepsCache` shows. Without it, the contract states only that the call uses the handle now cached for that namespace.
