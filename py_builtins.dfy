/** The pieces of Python's built-in behaviour the utilities rely on:
    truthiness of strings, the slice `s[:n]`, `str.startswith`, and the
    conversions `int()` and `str()` between decimal text and numbers. */
module PyBuiltins {
  import opened Wrappers

  /** A `str` is truthy exactly when it is not empty. */
  predicate Truthy(s: string) {
    |s| > 0
  }

  /** An optional `str` is truthy when it is present and not empty. */
  predicate TruthyOption(o: Option<string>) {
    o.Some? && Truthy(o.value)
  }

  function Min(a: int, b: int): int {
    if a < b then a else b
  }

  function Max(a: int, b: int): int {
    if a < b then b else a
  }

  /** How many items `s[:n]` keeps of a sequence of length `len`: a
      non-negative `n` keeps at most `n`, a negative `n` drops `-n` items
      from the end. */
  function SliceEnd(len: nat, n: int): (k: nat)
    ensures k <= len
  {
    if n >= 0 then Min(n, len) else Max(0, len + n)
  }

  /** `r` is what `s[:n]` yields: a prefix of `s` whose length is governed
      by `n`. */
  predicate IsPrefixSlice<T(==)>(r: seq<T>, s: seq<T>, n: int) {
    && r <= s
    && (0 <= n ==> |r| == Min(n, |s|))
    && (n < 0 ==> |r| == Max(0, |s| + n))
  }

  /** Python's `s[:n]`. */
  function PrefixSlice<T>(s: seq<T>, n: int): (r: seq<T>)
    ensures IsPrefixSlice(r, s, n)
  {
    s[..SliceEnd(|s|, n)]
  }

  /** Python's `s.startswith(prefix)`. */
  predicate StartsWith(s: string, prefix: string) {
    prefix <= s
  }

  predicate IsDigit(c: char) {
    '0' <= c <= '9'
  }

  /** A non-empty run of ASCII digits. */
  predicate IsDecimal(s: string) {
    |s| > 0 && forall i :: 0 <= i < |s| ==> IsDigit(s[i])
  }

  function DigitsValue(s: string): nat
    requires forall i :: 0 <= i < |s| ==> IsDigit(s[i])
  {
    if s == [] then 0
    else
      assert IsDigit(s[|s| - 1]);
      10 * DigitsValue(s[..|s| - 1]) + (s[|s| - 1] as int - '0' as int)
  }

  function DigitChar(d: nat): (c: char)
    requires d < 10
    ensures IsDigit(c) && c as int - '0' as int == d
  {
    ('0' as int + d) as char
  }

  /** Python's `int(s)` on text: the decimal value, or None where `int()`
      raises ValueError. */
  function ParseInt(s: string): (r: Option<int>)
    ensures r.Some? <==> IsDecimal(s)
    ensures r.Some? ==> r.value >= 0
  {
    if IsDecimal(s) then Some(DigitsValue(s)) else None
  }

  /** Python's `str(n)` for a natural number, the form in which
      `git log --format=%at` prints a timestamp. */
  function DecimalText(n: nat): (s: string)
    ensures IsDecimal(s)
  {
    if n < 10 then [DigitChar(n)] else DecimalText(n / 10) + [DigitChar(n % 10)]
  }

  /** A number printed in decimal is read back exactly. */
  lemma {:induction false} ParseDecimalText(n: nat)
    ensures ParseInt(DecimalText(n)) == Some(n)
  {
    var s := DecimalText(n);
    if n >= 10 {
      ParseDecimalText(n / 10);
      assert s[..|s| - 1] == DecimalText(n / 10);
    }
    assert DigitsValue(s) == n;
  }
}
