/** Small value types and string helpers shared by every other module:
    Option and Result (the stock failure-compatible wrappers), Python's
    notion of a "truthy" optional string, ASCII lower-casing and the ASCII
    filter used for multipart file names. */
module Base {

  datatype Option<+T> = None | Some(value: T) {
    predicate IsFailure() { None? }
    function PropagateFailure<U>(): Option<U> requires None? { None }
    function Extract(): T requires Some? { value }
  }

  datatype Result<+T, +E> = Ok(value: T) | Err(error: E) {
    predicate IsFailure() { Err? }
    function PropagateFailure<U>(): Result<U, E> requires Err? { Err(error) }
    function Extract(): T requires Ok? { value }
  }

  /** A Python `str` or `None` in a boolean context: only a present,
      non-empty string is true. */
  predicate Truthy(s: Option<string>) {
    s.Some? && |s.value| > 0
  }

  /** `None` when the Python value would be falsy, the value otherwise. */
  function IfTruthy(s: Option<string>): (r: Option<string>)
    ensures r.Some? <==> Truthy(s)
    ensures r.Some? ==> r == s
  {
    if Truthy(s) then s else None
  }

  /** `str.lower()` on the ASCII range; other characters are unchanged. */
  function LowerChar(c: char): (r: char)
    ensures 'A' <= c <= 'Z' ==> r as int == c as int + 32
    ensures !('A' <= c <= 'Z') ==> r == c
    ensures !('A' <= r <= 'Z')
  {
    if 'A' <= c <= 'Z' then (c as int + 32) as char else c
  }

  function Lower(s: string): (r: string)
    ensures |r| == |s|
    ensures forall i :: 0 <= i < |s| ==> r[i] == LowerChar(s[i])
  {
    seq(|s|, i requires 0 <= i < |s| => LowerChar(s[i]))
  }

  /** Lower-casing twice is lower-casing once. */
  lemma LowerIdempotent(s: string)
    ensures Lower(Lower(s)) == Lower(s)
  {
    var once := Lower(s);
    assert forall i :: 0 <= i < |s| ==> LowerChar(once[i]) == once[i];
  }

  /** `s` repeated `n` times: Python's `c * n` on a one-character string. */
  function Repeat(c: char, n: nat): (r: string)
    ensures |r| == n
    ensures forall i :: 0 <= i < n ==> r[i] == c
  {
    if n == 0 then [] else Repeat(c, n - 1) + [c]
  }

  predicate IsAsciiChar(c: char) { c as int < 128 }

  predicate IsAscii(s: string) {
    forall i :: 0 <= i < |s| ==> IsAsciiChar(s[i])
  }

  /** `a` is obtained from `b` by deleting elements. */
  predicate IsSubsequence<T(==)>(a: seq<T>, b: seq<T>)
    decreases |b|
  {
    if a == [] then true
    else if b == [] then false
    else if a[0] == b[0] then IsSubsequence(a[1..], b[1..])
    else IsSubsequence(a, b[1..])
  }

  /** The characters of `s` that are ASCII, in order: the effect of
      `decode('ascii', 'ignore')` on a sequence of code points. */
  function DropNonAscii(s: string): (r: string)
    ensures IsAscii(r)
    ensures |r| <= |s|
    decreases |s|
  {
    if s == [] then []
    else if IsAsciiChar(s[0]) then [s[0]] + DropNonAscii(s[1..])
    else DropNonAscii(s[1..])
  }

  lemma {:induction false} DropNonAsciiIsSubsequence(s: string)
    ensures IsSubsequence(DropNonAscii(s), s)
    decreases |s|
  {
    if s != [] {
      DropNonAsciiIsSubsequence(s[1..]);
      var rest := DropNonAscii(s[1..]);
      if IsAsciiChar(s[0]) {
        assert DropNonAscii(s) == [s[0]] + rest;
        assert ([s[0]] + rest)[1..] == rest;
      } else if DropNonAscii(s) != [] {
        assert DropNonAscii(s) == rest;
        assert rest[0] != s[0];
      }
    }
  }

  lemma {:induction false} DropNonAsciiKeepsAscii(s: string)
    ensures IsAscii(s) <==> DropNonAscii(s) == s
    decreases |s|
  {
    if s != [] {
      DropNonAsciiKeepsAscii(s[1..]);
      if !IsAsciiChar(s[0]) {
        // A non-ASCII character is dropped, so the result is shorter.
        assert |DropNonAscii(s)| == |DropNonAscii(s[1..])| <= |s| - 1;
      } else {
        assert IsAscii(s) <==> IsAscii(s[1..]);
      }
    }
  }

  /** Decimal rendering of an integer, as Python's `str()` / `'{}'.format`. */
  function Decimal(n: int): (r: string)
    ensures |r| > 0
    ensures n >= 0 ==> forall i :: 0 <= i < |r| ==> '0' <= r[i] <= '9'
    decreases if n < 0 then -n + 1 else n
  {
    if n < 0 then "-" + Decimal(-n)
    else if n < 10 then [Digit(n)]
    else Decimal(n / 10) + [Digit(n % 10)]
  }

  function Digit(d: int): (c: char)
    requires 0 <= d < 10
    ensures '0' <= c <= '9'
  {
    ['0', '1', '2', '3', '4', '5', '6', '7', '8', '9'][d]
  }
}
