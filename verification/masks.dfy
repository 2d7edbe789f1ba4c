/** `MaskPoints`: a set of pixel positions to paint in one colour, the unit
    every drawable element produces. */
module Masks {
  import opened Points
  import opened Colors

  datatype Mask = Mask(points: seq<Point<int>>, color: Rgb)

  /** All points of a list of masks, in order. */
  function AllPoints(ms: seq<Mask>): (r: seq<Point<int>>)
    ensures forall k :: 0 <= k < |ms| ==> forall p :: p in ms[k].points ==> p in r
  {
    if |ms| == 0 then [] else
      var rest := AllPoints(ms[1..]);
      assert forall k :: 1 <= k < |ms| ==> ms[k] == ms[1..][k - 1];
      ms[0].points + rest
  }

  /** Each point of a list of points converted to `u32`, saturating. */
  function MapU32(s: seq<Point<int>>): (r: seq<Point<int>>)
    ensures |r| == |s|
    ensures forall k :: 0 <= k < |s| ==> r[k] == ToU32(s[k])
  {
    seq(|s|, k requires 0 <= k < |s| => ToU32(s[k]))
  }

  lemma MapU32Snoc(s: seq<Point<int>>, p: Point<int>)
    ensures MapU32(s + [p]) == MapU32(s) + [ToU32(p)]
  {
  }
}
