/** `Colour` (src/colour.py:8-31): one colour name, or a list of colours for a gradient. */
module Colours {
  import opened Wrappers
  import opened Json

  datatype Colour = Colour(rawColour: Value)

  /** The default colour of `Colour()` (src/colour.py:12). */
  const DefaultColour: Colour := Colour(Str("white"))

  /** `isGradient` (src/colour.py:16-17): anything but a single string. */
  predicate IsGradient(c: Colour) {
    !c.rawColour.Str?
  }

  /** `getSingleColour` (src/colour.py:20-24): the first entry of a gradient, otherwise
      the colour itself. `None` when the gradient cannot be subscripted by 0. */
  function GetSingleColour(c: Colour): (r: Option<Value>)
    ensures !IsGradient(c) ==> r == Some(c.rawColour)
    ensures c.rawColour.List? && |c.rawColour.items| > 0 ==> r == Some(c.rawColour.items[0])
    ensures r.None? <==> IsGradient(c) && !(c.rawColour.List? && |c.rawColour.items| > 0)
  {
    if IsGradient(c) then Subscript(c.rawColour, 0) else Some(c.rawColour)
  }

  /** `getColourIndex` (src/colour.py:27-31): entry `index` of a gradient (Python
      indexing, so a negative index counts from the end), otherwise the colour itself
      whatever the index. */
  function GetColourIndex(c: Colour, index: int): (r: Option<Value>)
    ensures !IsGradient(c) ==> r == Some(c.rawColour)
    ensures c.rawColour.List? && 0 <= index < |c.rawColour.items| ==> r == Some(c.rawColour.items[index])
    ensures c.rawColour.List? ==> (r.Some? <==> -|c.rawColour.items| <= index < |c.rawColour.items|)
  {
    if IsGradient(c) then Subscript(c.rawColour, index) else GetSingleColour(c)
  }

  /** Entry 0 of any colour is its single colour, gradient or not. */
  lemma FirstIsSingle(c: Colour)
    ensures GetColourIndex(c, 0) == GetSingleColour(c)
  {
  }

  /** A single colour gives one and the same answer for every index. */
  lemma SingleEverywhere(c: Colour, i: int, j: int)
    requires !IsGradient(c)
    ensures GetColourIndex(c, i) == GetColourIndex(c, j) == GetSingleColour(c)
  {
  }

  /** The entries of a list gradient are read in order, and the last one is also
      entry -1. */
  lemma GradientLast(c: Colour)
    requires c.rawColour.List? && |c.rawColour.items| > 0
    ensures GetColourIndex(c, -1) == GetColourIndex(c, |c.rawColour.items| - 1)
  {
  }
}
