/**
 The few JavaScript built-ins the typeahead logic relies on, with their
 JavaScript meaning written out: the `%` operator on integers, string
 `lastIndexOf`, string `substring` and `||` between strings.

 A string is a sequence of characters; each character stands for one
 JavaScript code unit.
 */
module JsBuiltins {

  function Abs(x: int): nat {
    if x < 0 then -x else x
  }

  /** `(m * k) % m == 0`: a multiple of `m` leaves no Euclidean remainder. */
  lemma MultipleHasNoRemainder(m: int, k: int)
    requires m > 0
    ensures (m * k) % m == 0
  {
    var x := m * k;
    var q, r := x / m, x % m;
    assert x == m * q + r && 0 <= r < m;
    var d := k - q;
    assert m * d == r;
    assert d >= 1 ==> m * d >= m;
    assert d <= -1 ==> m * d <= -m;
  }

  /** Dividing `m * q + r` by `m` leaves `r` when `0 <= r < m`. */
  lemma EuclideanRemainderUnique(x: int, m: int, q: int, r: int)
    requires m > 0 && 0 <= r < m && x == m * q + r
    ensures x % m == r
  {
    var d := q - x / m;
    assert x == m * (x / m) + x % m;
    assert m * d == x % m - r;
    assert d >= 1 ==> m * d >= m;
    assert d <= -1 ==> m * d <= -m;
  }

  /**
   JavaScript's remainder operator `a % b` on integers: division truncates
   toward zero, so the remainder is smaller than the divisor in magnitude,
   carries the sign of the dividend, and differs from it by a multiple of
   the divisor. (Dafny's own `%` is Euclidean and never negative.)
   */
  function Remainder(a: int, b: int): (r: int)
    requires b != 0
    ensures Abs(r) < Abs(b)
    ensures a >= 0 ==> r >= 0
    ensures a <= 0 ==> r <= 0
    ensures (a - r) % Abs(b) == 0
  {
    var m := Abs(b);
    if a >= 0 then
      var r := a % m;
      assert a - r == m * (a / m);
      MultipleHasNoRemainder(m, a / m);
      r
    else
      var r := -((-a) % m);
      assert a - r == m * -((-a) / m);
      MultipleHasNoRemainder(m, -((-a) / m));
      r
  }

  /** `search` occurs in `text` starting at index `i`. */
  predicate OccursAt(text: string, search: string, i: int) {
    0 <= i && i + |search| <= |text| && text[i..i + |search|] == search
  }

  /** `i` is where the last occurrence of `search` in `text` starts. */
  ghost predicate IsLastOccurrence(text: string, search: string, i: int) {
    OccursAt(text, search, i) && forall j :: i < j ==> !OccursAt(text, search, j)
  }

  /** `s` begins with `prefix`. */
  predicate StartsWith(s: string, prefix: string) {
    |prefix| <= |s| && s[..|prefix|] == prefix
  }

  /**
   `text.lastIndexOf(search)`: the start of the last occurrence, or -1 when
   there is none. The empty string occurs at every index, the last being
   `|text|`.
   */
  function LastIndexOf(text: string, search: string): (r: int)
    ensures r == -1 <==> forall i :: !OccursAt(text, search, i)
    ensures r != -1 ==> IsLastOccurrence(text, search, r)
  {
    if |search| > |text| then -1
    else LastIndexAtOrBefore(text, search, |text| - |search|)
  }

  /** The last occurrence of `search` that starts at index `i` or earlier, or -1. */
  function LastIndexAtOrBefore(text: string, search: string, i: int): (r: int)
    requires -1 <= i <= |text| - |search|
    ensures r == -1 ==> forall j :: j <= i ==> !OccursAt(text, search, j)
    ensures r != -1 ==> 0 <= r <= i && OccursAt(text, search, r)
    ensures r != -1 ==> forall j :: r < j <= i ==> !OccursAt(text, search, j)
    decreases i + 1
  {
    if i < 0 then -1
    else if text[i..i + |search|] == search then i
    else LastIndexAtOrBefore(text, search, i - 1)
  }

  /**
   `s.substring(from, to)`: both bounds are clamped to `[0, |s|]` and
   swapped when they come in the wrong order.
   */
  function Substring(s: string, from: int, to: int): (r: string)
    ensures |r| <= |s|
    ensures 0 <= from <= to <= |s| ==> r == s[from..to]
    ensures 0 <= to <= from <= |s| ==> r == s[to..from]
    ensures from <= 0 <= to <= |s| ==> r == s[..to]
    ensures to <= 0 <= from <= |s| ==> r == s[..from]
    ensures 0 <= from <= |s| <= to ==> r == s[from..]
    ensures 0 <= to <= |s| <= from ==> r == s[to..]
    ensures (from <= 0 && |s| <= to) || (to <= 0 && |s| <= from) ==> r == s
    ensures (from <= 0 && to <= 0) || (|s| <= from && |s| <= to) ==> r == ""
  {
    var a := if from < 0 then 0 else if from > |s| then |s| else from;
    var b := if to < 0 then 0 else if to > |s| then |s| else to;
    if a <= b then s[a..b] else s[b..a]
  }

  /** `value || fallback` for strings: the empty string is falsy. */
  function OrDefault(value: string, fallback: string): (r: string)
    ensures value != "" ==> r == value
    ensures value == "" ==> r == fallback
  {
    if value == "" then fallback else value
  }
}
