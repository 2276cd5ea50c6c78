/** Vocabulary shared by every module of the gateway model: the Option and
    Result wrappers that stand for Rust's `Option` and `Result`, and Rust's
    `str::trim`, which the namespace checks apply to every database and
    collection name. */
module Common {

  /** Rust's `Option<T>`. */
  datatype Option<+T> = None | Some(value: T) {

    /** `Option::unwrap_or`: the carried value, or `default` when absent. */
    function GetOr(default: T): T {
      match this
      case Some(v) => v
      case None => default
    }
  }

  /** Rust's `Result<T, E>`. */
  datatype Result<+T, +E> = Success(value: T) | Failure(error: E)

  /** The ranges of Rust's unsigned integer types: `u32` values lie below
      `U32Limit`, `u64` values below `U64Limit`. */
  const U32Limit: nat := 0x1_0000_0000
  const U64Limit: nat := 0x1_0000_0000_0000_0000
  type U64 = n: nat | n < U64Limit

  /** The Unicode White_Space property, which is what `char::is_whitespace`
      (and hence `str::trim`) tests: U+0009..U+000D, U+0020, U+0085, U+00A0,
      U+1680, U+2000..U+200A, U+2028, U+2029, U+202F, U+205F and U+3000. */
  predicate IsWhitespace(c: char) {
    var n := c as int;
    || (0x09 <= n <= 0x0D)
    || n == 0x20
    || n == 0x85
    || n == 0xA0
    || n == 0x1680
    || (0x2000 <= n <= 0x200A)
    || n == 0x2028
    || n == 0x2029
    || n == 0x202F
    || n == 0x205F
    || n == 0x3000
  }

  predicate AllWhitespace(s: string) {
    forall i :: 0 <= i < |s| ==> IsWhitespace(s[i])
  }

  /** Every character of `s` at a position in `lo..hi` is whitespace. */
  ghost predicate WhitespaceBetween(s: string, lo: int, hi: int)
    requires 0 <= lo && hi <= |s|
  {
    forall k :: lo <= k < hi ==> IsWhitespace(s[k])
  }

  /** `str::trim_start`: drops the longest all-whitespace prefix. */
  function TrimStart(s: string): (r: string)
    ensures |r| <= |s| && r == s[|s| - |r|..]
    ensures WhitespaceBetween(s, 0, |s| - |r|)
    ensures r != [] ==> !IsWhitespace(r[0])
    ensures r == [] <==> AllWhitespace(s)
  {
    if |s| > 0 && IsWhitespace(s[0]) then
      var rest := s[1..];
      var r := TrimStart(rest);
      assert r == s[|s| - |r|..];
      assert WhitespaceBetween(s, 0, |s| - |r|) by {
        forall k | 0 < k < |s| - |r| ensures IsWhitespace(s[k]) {
          assert s[k] == rest[k - 1];
        }
      }
      assert AllWhitespace(rest) ==> AllWhitespace(s) by {
        if AllWhitespace(rest) {
          forall k | 0 < k < |s| ensures IsWhitespace(s[k]) {
            assert s[k] == rest[k - 1];
          }
        }
      }
      r
    else
      s
  }

  /** `str::trim_end`: drops the longest all-whitespace suffix. */
  function TrimEnd(s: string): (r: string)
    ensures |r| <= |s| && r == s[..|r|]
    ensures WhitespaceBetween(s, |r|, |s|)
    ensures r != [] ==> !IsWhitespace(r[|r| - 1])
    ensures r == [] ==> AllWhitespace(s)
  {
    if |s| > 0 && IsWhitespace(s[|s| - 1]) then
      var init := s[..|s| - 1];
      var r := TrimEnd(init);
      assert r == s[..|r|];
      assert WhitespaceBetween(s, |r|, |s|) by {
        forall k | |r| <= k < |s| - 1 ensures IsWhitespace(s[k]) {
          assert s[k] == init[k];
        }
      }
      r
    else
      s
  }

  /** `t` is the slice of `s` starting at `i`, and everything outside it is
      whitespace. */
  ghost predicate TrimmedAt(s: string, i: int, t: string) {
    && 0 <= i <= i + |t| <= |s|
    && t == s[i..i + |t|]
    && WhitespaceBetween(s, 0, i)
    && WhitespaceBetween(s, i + |t|, |s|)
  }

  /** Where the trimmed text starts: after the leading whitespace. */
  function TrimOffset(s: string): nat {
    |s| - |TrimStart(s)|
  }

  /** `str::trim`: the slice of `s` at `TrimOffset(s)` that neither starts
      nor ends with whitespace, with only whitespace cut off on either side;
      it is empty exactly when `s` is blank. */
  function Trim(s: string): (r: string)
    ensures TrimmedAt(s, TrimOffset(s), r)
    ensures r != [] ==> !IsWhitespace(r[0]) && !IsWhitespace(r[|r| - 1])
    ensures r == [] <==> AllWhitespace(s)
  {
    var t := TrimStart(s);
    var r := TrimEnd(t);
    TrimParts(s, t, r);
    r
  }

  /** The two halves of `Trim` put together: `t` is what `TrimStart` keeps
      of `s` and `r` what `TrimEnd` keeps of `t`, each described by its
      contract. */
  lemma TrimParts(s: string, t: string, r: string)
    requires |t| <= |s| && t == s[|s| - |t|..] && WhitespaceBetween(s, 0, |s| - |t|)
    requires t != [] ==> !IsWhitespace(t[0])
    requires t == [] <==> AllWhitespace(s)
    requires |r| <= |t| && r == t[..|r|] && WhitespaceBetween(t, |r|, |t|)
    requires r != [] ==> !IsWhitespace(r[|r| - 1])
    requires r == [] ==> AllWhitespace(t)
    ensures TrimmedAt(s, |s| - |t|, r)
    ensures r != [] ==> !IsWhitespace(r[0]) && !IsWhitespace(r[|r| - 1])
    ensures r == [] <==> AllWhitespace(s)
  {
    var i := |s| - |t|;
    assert r == s[i..i + |r|];
    assert WhitespaceBetween(s, i + |r|, |s|) by {
      forall k | i + |r| <= k < |s| ensures IsWhitespace(s[k]) {
        assert s[k] == t[k - i];
      }
    }
    assert r != [] ==> r[0] == t[0];
    assert t != [] ==> !AllWhitespace(t);
  }

  /** The trimmed form is unique: any whitespace-bounded slice whose ends are
      not whitespace is what `Trim` returns. */
  lemma TrimUnique(s: string, i: int, t: string)
    requires TrimmedAt(s, i, t)
    requires t != [] ==> !IsWhitespace(t[0]) && !IsWhitespace(t[|t| - 1])
    ensures Trim(s) == t
  {
    var r := Trim(s);
    var j := TrimOffset(s);
    if t == [] {
      assert AllWhitespace(s);
    } else {
      assert t[0] == s[i];
      assert !AllWhitespace(s);
      assert r[0] == s[j];
      assert i == j;
      assert t[|t| - 1] == s[i + |t| - 1];
      assert r[|r| - 1] == s[j + |r| - 1];
      assert |t| == |r|;
    }
  }

  /** Trimming twice is trimming once. */
  lemma TrimIdempotent(s: string)
    ensures Trim(Trim(s)) == Trim(s)
  {
    var t := Trim(s);
    assert t[0..|t|] == t;
    assert TrimmedAt(t, 0, t);
    TrimUnique(t, 0, t);
  }
}
