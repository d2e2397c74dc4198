/** Values and sequence helpers shared by every part of the sales-map model. */
module Common {

  datatype Option<T> = None | Some(value: T)

  /** A JavaScript value as it reaches the map's colouring code: `undefined`, `null`, `NaN`
      or a number. Every number in the sales data is an integer, because the data producer
      rounds them before the map loads them. */
  datatype JsValue = Undefined | Null | NaN | Num(n: int)

  /** `isNaN(v)` converts its argument to a number first: `undefined` becomes NaN, while
      `null` becomes 0 and so is not NaN. */
  predicate IsNaN(v: JsValue) {
    v.Undefined? || v.NaN?
  }

  /** The number that a value which is not NaN converts to (`null` converts to 0). */
  function ToNumber(v: JsValue): int
    requires !IsNaN(v)
  {
    if v.Null? then 0 else v.n
  }

  /** JavaScript truthiness: `undefined`, `null`, `NaN` and 0 are falsy. */
  predicate Truthy(v: JsValue) {
    v.Num? && v.n != 0
  }

  /** A colour: either one the caller names, or the `index`-th of `count` evenly spaced
      samples of a colour scale (how the scale computes that colour is not modelled). */
  datatype Color = Named(name: string) | Sampled(scale: seq<string>, index: nat, count: nat)

  /** `chroma.scale(scale).colors(n)`: `n` evenly spaced samples of the scale. */
  function ScaleColors(scale: seq<string>, n: nat): (r: seq<Color>)
    ensures |r| == n
  {
    seq(n, i requires 0 <= i < n => Sampled(scale, i, n))
  }

  function Last(s: seq<int>): int
    requires |s| > 0
  {
    s[|s| - 1]
  }

  predicate Nondecreasing(s: seq<int>) {
    forall i, j :: 0 <= i < j < |s| ==> s[i] <= s[j]
  }

  predicate StrictlyIncreasing(s: seq<int>) {
    forall i, j :: 0 <= i < j < |s| ==> s[i] < s[j]
  }

  /** `a` is what is left of `b` after deleting some of its elements. */
  predicate IsSubsequence<T(==)>(a: seq<T>, b: seq<T>)
    decreases |b|
  {
    if a == [] then true
    else if b == [] then false
    else (a[|a| - 1] == b[|b| - 1] && IsSubsequence(a[..|a| - 1], b[..|b| - 1]))
         || IsSubsequence(a, b[..|b| - 1])
  }

  /** The position of the first occurrence of `x` in `s`. */
  function FirstIndex<T(==)>(s: seq<T>, x: T): (r: nat)
    requires x in s
    ensures r < |s| && s[r] == x
    ensures forall k :: 0 <= k < r ==> s[k] != x
  {
    if s[0] == x then 0 else 1 + FirstIndex(s[1..], x)
  }

  /** Decimal digits of a natural number, as a template literal prints it. */
  function NatText(n: nat): string
    decreases n
  {
    if n < 10 then ["0123456789"[n]] else NatText(n / 10) + ["0123456789"[n % 10]]
  }

  /** The decimal text of an integer, as a template literal prints it. */
  function IntText(n: int): string {
    if n < 0 then "-" + NatText(-n) else NatText(n)
  }
}
