/**
 * The three JavaScript built-ins the where-clause evaluator is made of:
 * `Array.prototype.some`, `Array.prototype.includes` (on strings, where
 * SameValueZero is plain equality) and `String.prototype.includes`.
 * Each is written the way the built-in walks its input and is proved
 * equal to an independent, declarative definition.
 */
module JsBuiltins {

  /** `xs.some(p)`: walks the array left to right and stops at the first hit. */
  function AnySatisfies<T>(xs: seq<T>, p: T -> bool): (r: bool)
    ensures r <==> exists i :: 0 <= i < |xs| && p(xs[i])
  {
    if xs == [] then false
    else if p(xs[0]) then true
    else
      var rest := AnySatisfies(xs[1..], p);
      assert forall i :: 1 <= i < |xs| ==> xs[i] == xs[1..][i - 1];
      rest
  }

  /** `xs.includes(x)` on an array of strings. */
  function ArrayIncludes(xs: seq<string>, x: string): (r: bool)
    ensures r <==> x in xs
  {
    if xs == [] then false
    else if xs[0] == x then true
    else
      var rest := ArrayIncludes(xs[1..], x);
      assert x in xs <==> x in xs[1..] by {
        assert xs == [xs[0]] + xs[1..];
      }
      rest
  }

  /** `needle` occupies the positions `i .. i + |needle|` of `hay`. */
  predicate OccursAt(hay: string, needle: string, i: nat)
  {
    i + |needle| <= |hay| && hay[i..i + |needle|] == needle
  }

  /** Reference definition of "`needle` is a substring of `hay`". */
  ghost predicate Substring(needle: string, hay: string)
  {
    exists i: nat :: OccursAt(hay, needle, i)
  }

  lemma OccursAtShift(hay: string, needle: string, i: nat)
    requires |hay| > 0
    ensures OccursAt(hay, needle, i + 1) <==> OccursAt(hay[1..], needle, i)
  {
  }

  /** `hay.includes(needle)`: tries every start position from the left. */
  function StrIncludes(hay: string, needle: string): (r: bool)
    ensures r <==> Substring(needle, hay)
    decreases |hay|
  {
    if |needle| > |hay| then
      assert forall i: nat :: !OccursAt(hay, needle, i);
      false
    else if hay[..|needle|] == needle then
      assert OccursAt(hay, needle, 0);
      true
    else
      var rest := StrIncludes(hay[1..], needle);
      assert Substring(needle, hay) <==> Substring(needle, hay[1..]) by {
        forall i: nat ensures OccursAt(hay, needle, i + 1) <==> OccursAt(hay[1..], needle, i) {
          OccursAtShift(hay, needle, i);
        }
        if Substring(needle, hay) {
          var i: nat :| OccursAt(hay, needle, i);
          assert i != 0;
          assert OccursAt(hay[1..], needle, i - 1);
        }
        if Substring(needle, hay[1..]) {
          var i: nat :| OccursAt(hay[1..], needle, i);
          assert OccursAt(hay, needle, i + 1);
        }
      }
      rest
  }
}
