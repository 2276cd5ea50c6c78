/** Process configuration (src/config.rs): `Config::from_env` as a pure
    function of the environment, which is a map from variable name to value.
    A variable that is unset and one whose value is not valid Unicode are the
    same here: the source treats both alike. */
module Configuration {
  import opened Common

  type Env = map<string, string>

  const UriKey: string := "MONGODB_URI"
  const DefaultDatabaseKey: string := "MONGODB_DEFAULT_DATABASE"
  const DefaultCollectionKey: string := "MONGODB_DEFAULT_COLLECTION"
  const PoolMinKey: string := "MONGODB_POOL_MIN_SIZE"
  const PoolMaxKey: string := "MONGODB_POOL_MAX_SIZE"
  const ConnectTimeoutKey: string := "MONGODB_CONNECT_TIMEOUT_MS"
  const ServerSelectionTimeoutKey: string := "MONGODB_SERVER_SELECTION_TIMEOUT_MS"
  const LogLevelKey: string := "LOG_LEVEL"
  const BindAddressKey: string := "APP_BIND_ADDRESS"
  const DefaultBindAddress: string := "127.0.0.1:3000"

  /** `std::time::Duration`, reduced to what `Duration::from_millis` builds. */
  datatype Duration = FromMillis(millis: nat)

  datatype Config = Config(
    mongodbUri: string,
    defaultDatabase: Option<string>,
    defaultCollection: Option<string>,
    poolMinSize: Option<nat>,
    poolMaxSize: Option<nat>,
    connectTimeout: Option<Duration>,
    serverSelectionTimeout: Option<Duration>,
    logLevel: Option<string>,
    bindAddress: string)

  /** `core::num::IntErrorKind`, the three kinds unsigned decimal parsing
      can report. */
  datatype IntErrorKind = Empty | InvalidDigit | PosOverflow {
    /** The `Display` text of a `ParseIntError` of this kind. */
    function Message(): string {
      match this
      case Empty => "cannot parse integer from empty string"
      case InvalidDigit => "invalid digit found in string"
      case PosOverflow => "number too large to fit in target type"
    }
  }

  /** `ConfigError`. */
  datatype ConfigError = MissingEnv(key: string) | InvalidEnv(key: string, message: string)

  // ---------------------------------------------------------------------
  // Unsigned decimal parsing, as `str::parse::<u32>` / `::<u64>` does it
  // ---------------------------------------------------------------------

  predicate IsDigit(c: char) {
    '0' <= c <= '9'
  }

  predicate AllDigits(s: string) {
    forall i :: 0 <= i < |s| ==> IsDigit(s[i])
  }

  function DigitValue(c: char): nat
    requires IsDigit(c)
  {
    (c as int) - ('0' as int)
  }

  function Pow10(n: nat): (p: nat)
    ensures p >= 1
  {
    if n == 0 then 1 else 10 * Pow10(n - 1)
  }

  /** Positional value of a digit string: the first digit weighs
      `10^(|ds|-1)`. */
  function Value(ds: string): nat
    requires AllDigits(ds)
  {
    if ds == [] then 0 else DigitValue(ds[0]) * Pow10(|ds| - 1) + Value(ds[1..])
  }

  /** The digits after the one optional leading `+`. */
  function Unsigned(s: string): string {
    if |s| > 0 && s[0] == '+' then s[1..] else s
  }

  /** A text `parse` accepts for an unsigned type below `limit`: one
      optional `+`, then at least one ASCII digit, nothing else, and a value
      in range. */
  predicate Parses(s: string, limit: nat) {
    var ds := Unsigned(s);
    ds != [] && AllDigits(ds) && Value(ds) < limit
  }

  /** The digit loop of `from_str_radix`: left to right, the first invalid
      digit or the first step whose checked multiply or add leaves the type
      ends the scan with that error. */
  function Accumulate(ds: string, acc: nat, limit: nat): Result<nat, IntErrorKind> {
    if ds == [] then Success(acc)
    else if !IsDigit(ds[0]) then Failure(InvalidDigit)
    else if acc * 10 >= limit then Failure(PosOverflow)
    else if acc * 10 + DigitValue(ds[0]) >= limit then Failure(PosOverflow)
    else Accumulate(ds[1..], acc * 10 + DigitValue(ds[0]), limit)
  }

  /** `<uN as FromStr>::from_str` in radix 10, `limit` being `2^N`. An empty
      text, a lone sign, a `-` (unsigned types take no minus), any
      non-digit, or a value that does not fit is an error; one leading `+`
      is allowed. */
  function ParseUnsigned(s: string, limit: nat): (r: Result<nat, IntErrorKind>)
    ensures r.Success? <==> Parses(s, limit)
    ensures r.Success? ==> r.value == Value(Unsigned(s)) && r.value < limit
    ensures s == [] ==> r == Failure(Empty)
  {
    if s == [] then Failure(Empty)
    else if (s[0] == '+' || s[0] == '-') && |s| == 1 then Failure(InvalidDigit)
    else
      var ds := if s[0] == '+' then s[1..] else s;
      AccumulateValue(ds, 0, limit);
      Accumulate(ds, 0, limit)
  }

  /** Reading one more digit multiplies what was read so far by ten. */
  lemma ShiftValue(ds: string, acc: nat)
    requires ds != [] && AllDigits(ds)
    ensures (acc * 10 + DigitValue(ds[0])) * Pow10(|ds| - 1) + Value(ds[1..])
            == acc * Pow10(|ds|) + Value(ds)
  {
    var p := Pow10(|ds| - 1);
    var d := DigitValue(ds[0]);
    assert Pow10(|ds|) == 10 * p;
    assert Value(ds) == d * p + Value(ds[1..]);
    Distribute(acc, d, p);
  }

  /** `(10a + d) p == a (10 p) + d p`. */
  lemma Distribute(a: nat, d: nat, p: nat)
    ensures (a * 10 + d) * p == a * (10 * p) + d * p
  {
  }

  /** The digit loop succeeds exactly on an all-digit text whose value,
      appended to what was read before, stays in range, and then yields that
      value. */
  lemma {:induction false} AccumulateValue(ds: string, acc: nat, limit: nat)
    requires acc < limit || ds != []
    ensures Accumulate(ds, acc, limit).Success? <==> AllDigits(ds) && acc * Pow10(|ds|) + Value(ds) < limit
    ensures Accumulate(ds, acc, limit).Success? ==> Accumulate(ds, acc, limit).value == acc * Pow10(|ds|) + Value(ds)
    decreases |ds|
  {
    if ds != [] {
      var rest := ds[1..];
      var p := Pow10(|rest|);
      assert Pow10(|ds|) == 10 * p;
      AllDigitsCons(ds);
      if IsDigit(ds[0]) {
        var next := acc * 10 + DigitValue(ds[0]);
        if AllDigits(ds) {
          ShiftValue(ds, acc);
          assert acc * Pow10(|ds|) + Value(ds) == next * p + Value(rest);
          AtLeast(next, p);
          AtLeast(acc * 10, p);
          assert acc * Pow10(|ds|) == (acc * 10) * p;
        }
        if next < limit {
          AccumulateValue(rest, next, limit);
        }
      }
    }
  }

  /** A text is all digits exactly when its first character is a digit and
      the rest is all digits. */
  lemma AllDigitsCons(ds: string)
    requires ds != []
    ensures AllDigits(ds) <==> IsDigit(ds[0]) && AllDigits(ds[1..])
  {
    var rest := ds[1..];
    if IsDigit(ds[0]) && AllDigits(rest) {
      forall i | 0 <= i < |ds| ensures IsDigit(ds[i]) {
        if i > 0 { assert ds[i] == rest[i - 1]; }
      }
    }
    if AllDigits(ds) {
      forall i | 0 <= i < |rest| ensures IsDigit(rest[i]) {
        assert rest[i] == ds[i + 1];
      }
    }
  }

  /** Multiplying by a positive factor does not shrink. */
  lemma AtLeast(a: nat, p: nat)
    requires p >= 1
    ensures a * p >= a
  {
  }

  /** `n.to_string()`: the decimal digits of `n`, no sign, no leading zero. */
  function Decimal(n: nat): (s: string)
    ensures s != [] && AllDigits(s)
  {
    if n < 10 then ["0123456789"[n]]
    else Decimal(n / 10) + ["0123456789"[n % 10]]
  }

  /** Appending a digit multiplies the value by ten and adds the digit. */
  lemma {:induction false} ValueSnoc(ds: string, c: char)
    requires AllDigits(ds) && IsDigit(c)
    ensures AllDigits(ds + [c]) && Value(ds + [c]) == Value(ds) * 10 + DigitValue(c)
    decreases |ds|
  {
    var t := ds + [c];
    assert forall i :: 0 <= i < |t| ==> t[i] == if i < |ds| then ds[i] else c;
    if ds != [] {
      assert t[1..] == ds[1..] + [c];
      ValueSnoc(ds[1..], c);
      var p := Pow10(|ds| - 1);
      var d := DigitValue(ds[0]);
      var v := Value(ds[1..]);
      assert Pow10(|t| - 1) == 10 * p;
      assert t[0] == ds[0];
      assert Value(t) == d * (10 * p) + (v * 10 + DigitValue(c));
      assert Value(ds) == d * p + v;
      Regroup(d, p, v);
    }
  }

  /** `d (10 p) + 10 v == (d p + v) 10`. */
  lemma Regroup(d: nat, p: nat, v: nat)
    ensures d * (10 * p) + v * 10 == (d * p + v) * 10
  {
  }

  /** The decimal text of `n` has value `n`. */
  lemma {:induction false} DecimalValue(n: nat)
    ensures Value(Decimal(n)) == n
  {
    if n >= 10 {
      DecimalValue(n / 10);
      ValueSnoc(Decimal(n / 10), "0123456789"[n % 10]);
    }
  }

  /** Round trip: every in-range value parses back from its decimal text,
      with or without a leading `+`. */
  lemma ParseDecimalRoundTrip(n: nat, limit: nat)
    requires n < limit
    ensures ParseUnsigned(Decimal(n), limit) == Success(n)
    ensures ParseUnsigned("+" + Decimal(n), limit) == Success(n)
  {
    DecimalValue(n);
    var d := Decimal(n);
    assert d[0] != '+';
    assert Unsigned(d) == d;
    assert Unsigned("+" + d) == d;
  }

  /** A text starting with `-` never parses as an unsigned number, and
      neither does one with a whitespace character in it. */
  lemma ParseRejectsSignAndSpace(s: string, limit: nat)
    ensures |s| > 0 && s[0] == '-' ==> ParseUnsigned(s, limit).Failure?
    ensures (exists i :: 0 <= i < |s| && IsWhitespace(s[i])) ==> ParseUnsigned(s, limit).Failure?
  {
    if exists i :: 0 <= i < |s| && IsWhitespace(s[i]) {
      var i :| 0 <= i < |s| && IsWhitespace(s[i]);
      var ds := Unsigned(s);
      if |s| > 0 && s[0] == '+' {
        assert i > 0 ==> ds[i - 1] == s[i];
      } else {
        assert ds[i] == s[i];
      }
    }
  }

  /** A text of digits alone can only fail by overflowing. */
  lemma {:induction false} AccumulateDigitsOverflow(ds: string, acc: nat, limit: nat)
    requires AllDigits(ds)
    ensures Accumulate(ds, acc, limit).Failure? ==> Accumulate(ds, acc, limit).error == PosOverflow
    decreases |ds|
  {
    if ds != [] && acc * 10 + DigitValue(ds[0]) < limit {
      AllDigitsCons(ds);
      AccumulateDigitsOverflow(ds[1..], acc * 10 + DigitValue(ds[0]), limit);
    }
  }

  /** The decimal text of a value outside the type is reported as
      `PosOverflow`, "number too large to fit in target type". */
  lemma ParseOutOfRange(n: nat, limit: nat)
    requires n >= limit
    ensures ParseUnsigned(Decimal(n), limit) == Failure(PosOverflow)
  {
    DecimalValue(n);
    var d := Decimal(n);
    assert d[0] != '+' && d[0] != '-';
    assert Unsigned(d) == d;
    AccumulateDigitsOverflow(d, 0, limit);
  }

  // ---------------------------------------------------------------------
  // Reading the environment
  // ---------------------------------------------------------------------

  /** `env::var(key).ok()`. */
  function Lookup(env: Env, key: string): (r: Option<string>)
    ensures r.Some? <==> key in env
    ensures r.Some? ==> r.value == env[key]
  {
    if key in env then Some(env[key]) else None
  }

  /** `env::var(key).ok().filter(|s| !s.is_empty())`: an empty value counts
      as unset; any other value is kept verbatim, not trimmed. */
  function NonEmptyVar(env: Env, key: string): (r: Option<string>)
    ensures r.Some? <==> key in env && env[key] != []
    ensures r.Some? ==> r.value == env[key]
  {
    match Lookup(env, key)
    case Some(v) => if v != [] then Some(v) else None
    case None => None
  }

  /** `get_required`: a variable that must be set to a non-empty value. */
  function GetRequired(env: Env, key: string): (r: Result<string, ConfigError>)
    ensures r.Success? <==> key in env && env[key] != []
    ensures r.Success? ==> r.value == env[key]
    ensures r.Failure? ==> r.error == MissingEnv(key)
  {
    match NonEmptyVar(env, key)
    case Some(v) => Success(v)
    case None => Failure(MissingEnv(key))
  }

  /** The shared body of `parse_optional_u32` and `parse_optional_u64`: an
      unset or empty variable is `None`; any other value must parse as an
      unsigned number below `limit`, or the error names the variable. */
  function ParseOptional(env: Env, key: string, limit: nat): (r: Result<Option<nat>, ConfigError>)
    ensures (key !in env || env[key] == []) ==> r == Success(None)
    ensures key in env && env[key] != [] ==>
              (r.Success? <==> Parses(env[key], limit))
              && (r.Success? ==> r.value == Some(Value(Unsigned(env[key]))) && r.value.value < limit)
              && (r.Failure? ==> r.error.InvalidEnv? && r.error.key == key)
  {
    match NonEmptyVar(env, key)
    case None => Success(None)
    case Some(v) =>
      match ParseUnsigned(v, limit)
      case Success(n) => Success(Some(n))
      case Failure(kind) => Failure(InvalidEnv(key, kind.Message()))
  }

  /** `parse_optional_u32`. */
  function ParseOptionalU32(env: Env, key: string): (r: Result<Option<nat>, ConfigError>)
    ensures r.Success? && r.value.Some? ==> r.value.value < U32Limit
    ensures r.Failure? ==> r.error.InvalidEnv? && r.error.key == key
    ensures r.Success? <==> Accepts(env, key, U32Limit)
  {
    ParseOptional(env, key, U32Limit)
  }

  /** `parse_optional_u64`. */
  function ParseOptionalU64(env: Env, key: string): (r: Result<Option<nat>, ConfigError>)
    ensures r.Success? && r.value.Some? ==> r.value.value < U64Limit
    ensures r.Failure? ==> r.error.InvalidEnv? && r.error.key == key
    ensures r.Success? <==> Accepts(env, key, U64Limit)
  {
    ParseOptional(env, key, U64Limit)
  }

  /** `parse_optional_duration`: a `u64` count of milliseconds. */
  function ParseOptionalDuration(env: Env, key: string): (r: Result<Option<Duration>, ConfigError>)
    ensures r.Success? <==> ParseOptionalU64(env, key).Success?
    ensures r.Success? ==> (r.value.Some? <==> ParseOptionalU64(env, key).value.Some?)
    ensures r.Success? && r.value.Some? ==> r.value.value.millis == ParseOptionalU64(env, key).value.value
    ensures r.Failure? ==> r.error == ParseOptionalU64(env, key).error
  {
    match ParseOptionalU64(env, key)
    case Success(Some(ms)) => Success(Some(FromMillis(ms)))
    case Success(None) => Success(None)
    case Failure(e) => Failure(e)
  }

  /** `Config::from_env`. The variables are read in a fixed order and the
      first that fails ends the read with its error; on success every field
      reflects its variable, and the bind address falls back to
      `127.0.0.1:3000` only when it is unset. */
  function FromEnv(env: Env): (r: Result<Config, ConfigError>)
    ensures r.Success? <==> Passes(env, 0) && Passes(env, 1) && Passes(env, 2) && Passes(env, 3) && Passes(env, 4)
    ensures !Passes(env, 0) ==> r == Failure(MissingEnv(UriKey))
    ensures Passes(env, 0) && !Passes(env, 1) ==> r.Failure? && r.error.InvalidEnv? && r.error.key == PoolMinKey
    ensures Passes(env, 0) && Passes(env, 1) && !Passes(env, 2) ==>
              r.Failure? && r.error.InvalidEnv? && r.error.key == PoolMaxKey
    ensures Passes(env, 0) && Passes(env, 1) && Passes(env, 2) && !Passes(env, 3) ==>
              r.Failure? && r.error.InvalidEnv? && r.error.key == ConnectTimeoutKey
    ensures Passes(env, 0) && Passes(env, 1) && Passes(env, 2) && Passes(env, 3) && !Passes(env, 4) ==>
              r.Failure? && r.error.InvalidEnv? && r.error.key == ServerSelectionTimeoutKey
    ensures r.Success? ==>
              && r.value.mongodbUri == env[UriKey]
              && r.value.defaultDatabase == NonEmptyVar(env, DefaultDatabaseKey)
              && r.value.defaultCollection == NonEmptyVar(env, DefaultCollectionKey)
              && r.value.logLevel == NonEmptyVar(env, LogLevelKey)
              && r.value.poolMinSize == ParseOptionalU32(env, PoolMinKey).value
              && r.value.poolMaxSize == ParseOptionalU32(env, PoolMaxKey).value
              && r.value.connectTimeout == ParseOptionalDuration(env, ConnectTimeoutKey).value
              && r.value.serverSelectionTimeout == ParseOptionalDuration(env, ServerSelectionTimeoutKey).value
              && (BindAddressKey in env ==> r.value.bindAddress == env[BindAddressKey])
              && (BindAddressKey !in env ==> r.value.bindAddress == DefaultBindAddress)
  {
    match GetRequired(env, UriKey)
    case Failure(e) => Failure(e)
    case Success(uri) =>
      var defaultDatabase := NonEmptyVar(env, DefaultDatabaseKey);
      var defaultCollection := NonEmptyVar(env, DefaultCollectionKey);
      match ParseOptionalU32(env, PoolMinKey)
      case Failure(e) => Failure(e)
      case Success(poolMin) =>
        match ParseOptionalU32(env, PoolMaxKey)
        case Failure(e) => Failure(e)
        case Success(poolMax) =>
          match ParseOptionalDuration(env, ConnectTimeoutKey)
          case Failure(e) => Failure(e)
          case Success(connect) =>
            match ParseOptionalDuration(env, ServerSelectionTimeoutKey)
            case Failure(e) => Failure(e)
            case Success(selection) =>
              var logLevel := NonEmptyVar(env, LogLevelKey);
              var bind := Lookup(env, BindAddressKey).GetOr(DefaultBindAddress);
              Success(Config(uri, defaultDatabase, defaultCollection, poolMin, poolMax,
                             connect, selection, logLevel, bind))
  }

  // ---------------------------------------------------------------------
  // What `from_env` promises
  // ---------------------------------------------------------------------

  /** The order in which `from_env` reads the variables that can fail. */
  const ReadOrder: seq<string> := [UriKey, PoolMinKey, PoolMaxKey, ConnectTimeoutKey, ServerSelectionTimeoutKey]

  /** The range of the type each numeric variable is parsed into. */
  function LimitOf(key: string): nat {
    if key == PoolMinKey || key == PoolMaxKey then U32Limit else U64Limit
  }

  /** An optional numeric variable is acceptable when it is unset, empty,
      or a well-formed in-range number. */
  predicate Accepts(env: Env, key: string, limit: nat) {
    key !in env || env[key] == [] || Parses(env[key], limit)
  }

  /** Whether the `i`-th variable of `ReadOrder` passes its check. */
  predicate Passes(env: Env, i: nat)
    requires i < |ReadOrder|
  {
    if i == 0 then UriKey in env && env[UriKey] != []
    else Accepts(env, ReadOrder[i], LimitOf(ReadOrder[i]))
  }

  /** An unset or empty `MONGODB_URI` fails with `MissingEnv("MONGODB_URI")`
      whatever else is set, and that is the only way to get `MissingEnv`. */
  lemma FromEnvMissingUri(env: Env)
    ensures FromEnv(env) == Failure(MissingEnv(UriKey)) <==> (UriKey !in env || env[UriKey] == [])
    ensures FromEnv(env).Failure? && FromEnv(env).error.MissingEnv? ==> FromEnv(env).error.key == UriKey
  {
  }

  /** Error precedence: `from_env` fails exactly when some variable fails
      its check, and the error names the first failing one in read order;
      a bad numeric value is reported as `InvalidEnv`. */
  lemma FromEnvFirstFailure(env: Env)
    ensures FromEnv(env).Failure? <==> exists i :: 0 <= i < |ReadOrder| && !Passes(env, i)
    ensures FromEnv(env).Failure? ==>
              exists i :: 0 <= i < |ReadOrder| && !Passes(env, i)
                && (forall j :: 0 <= j < i ==> Passes(env, j))
                && FromEnv(env).error.key == ReadOrder[i]
                && (i > 0 ==> FromEnv(env).error.InvalidEnv?)
  {
    if !Passes(env, 0) {
      assert FromEnv(env).error.key == ReadOrder[0];
    } else if !Passes(env, 1) {
      assert FromEnv(env).error.key == ReadOrder[1];
    } else if !Passes(env, 2) {
      assert FromEnv(env).error.key == ReadOrder[2];
    } else if !Passes(env, 3) {
      assert FromEnv(env).error.key == ReadOrder[3];
    } else if !Passes(env, 4) {
      assert FromEnv(env).error.key == ReadOrder[4];
    } else {
      assert forall i :: 0 <= i < |ReadOrder| ==> Passes(env, i);
    }
  }

  /** On success every field reflects its variable: the URI verbatim; the
      defaults and the log level verbatim when non-empty and `None`
      otherwise; the numbers as parsed, timeouts in milliseconds; the bind
      address as set, even when empty, and `127.0.0.1:3000` only when
      unset. */
  lemma FromEnvFields(env: Env)
    requires FromEnv(env).Success?
    ensures var c := FromEnv(env).value;
            && c.mongodbUri == env[UriKey]
            && c.defaultDatabase == NonEmptyVar(env, DefaultDatabaseKey)
            && c.defaultCollection == NonEmptyVar(env, DefaultCollectionKey)
            && c.logLevel == NonEmptyVar(env, LogLevelKey)
            && (PoolMinKey in env && env[PoolMinKey] != [] ==> c.poolMinSize == Some(Value(Unsigned(env[PoolMinKey]))))
            && (PoolMinKey !in env || env[PoolMinKey] == [] ==> c.poolMinSize == None)
            && (PoolMaxKey in env && env[PoolMaxKey] != [] ==> c.poolMaxSize == Some(Value(Unsigned(env[PoolMaxKey]))))
            && (PoolMaxKey !in env || env[PoolMaxKey] == [] ==> c.poolMaxSize == None)
            && (ConnectTimeoutKey in env && env[ConnectTimeoutKey] != [] ==>
                  c.connectTimeout == Some(FromMillis(Value(Unsigned(env[ConnectTimeoutKey])))))
            && (ConnectTimeoutKey !in env || env[ConnectTimeoutKey] == [] ==> c.connectTimeout == None)
            && (ServerSelectionTimeoutKey in env && env[ServerSelectionTimeoutKey] != [] ==>
                  c.serverSelectionTimeout == Some(FromMillis(Value(Unsigned(env[ServerSelectionTimeoutKey])))))
            && (ServerSelectionTimeoutKey !in env || env[ServerSelectionTimeoutKey] == [] ==> c.serverSelectionTimeout == None)
            && (BindAddressKey in env ==> c.bindAddress == env[BindAddressKey])
            && (BindAddressKey !in env ==> c.bindAddress == DefaultBindAddress)
  {
  }
}
