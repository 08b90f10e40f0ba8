/** The display-orientation transforms the driver applies to a decoded touch point:
    swap the axes, then mirror X, then mirror Y, each switched on by its own build flag. */
module Orientation {
  import opened Machine

  /** The build-time orientation switches and the display resolution used for mirroring. */
  datatype Transform = Transform(swapXY: bool, invertX: bool, invertY: bool, horRes: Int16, verRes: Int16)

  datatype Point = Point(x: Int16, y: Int16)

  function Swap(p: Point): Point
  {
    Point(p.y, p.x)
  }

  /** `res - v` stored back into an `int16_t` coordinate. */
  function Mirror(res: Int16, v: Int16): (w: Int16)
    ensures 0 <= v <= res ==> w == res - v && 0 <= w <= res
  {
    ToInt16(res - v)
  }

  /** Mirroring twice about the same resolution gives the coordinate back, also when the
      intermediate value wrapped. */
  lemma MirrorInvolution(res: Int16, v: Int16)
    ensures Mirror(res, Mirror(res, v)) == v
  {
    ToInt16SubInner(res, res - v);
  }

  /** The transforms in the driver's order. Each result coordinate is stated in closed form:
      X is the raw coordinate that lands on the X axis after the optional swap, mirrored
      about the horizontal resolution when X inversion is on; likewise for Y. */
  function Orient(t: Transform, p: Point): (q: Point)
    ensures q.x == (var sx := if t.swapXY then p.y else p.x;
                    if t.invertX then ToInt16(t.horRes - sx) else sx)
    ensures q.y == (var sy := if t.swapXY then p.x else p.y;
                    if t.invertY then ToInt16(t.verRes - sy) else sy)
  {
    var swapped := if t.swapXY then Swap(p) else p;
    var mirroredX := if t.invertX then swapped.(x := Mirror(t.horRes, swapped.x)) else swapped;
    if t.invertY then mirroredX.(y := Mirror(t.verRes, mirroredX.y)) else mirroredX
  }

  /** The transforms undone in reverse order. Every displayed point comes from exactly the
      raw point this returns. */
  function Unorient(t: Transform, q: Point): (p: Point)
    ensures Orient(t, p) == q
  {
    var unmirroredY := if t.invertY then q.(y := Mirror(t.verRes, q.y)) else q;
    var unmirroredX := if t.invertX then unmirroredY.(x := Mirror(t.horRes, unmirroredY.x)) else unmirroredY;
    MirrorInvolution(t.horRes, unmirroredY.x);
    MirrorInvolution(t.verRes, q.y);
    if t.swapXY then Swap(unmirroredX) else unmirroredX
  }

  /** No two raw points are shown at the same place: `Unorient` also undoes `Orient`. */
  lemma UnorientOrient(t: Transform, p: Point)
    ensures Unorient(t, Orient(t, p)) == p
  {
    var sx := if t.swapXY then p.y else p.x;
    var sy := if t.swapXY then p.x else p.y;
    MirrorInvolution(t.horRes, sx);
    MirrorInvolution(t.verRes, sy);
  }

  /** Swap is applied before X inversion: with swap and X inversion on, raw (10, 20) on a
      320 x 240 display is reported as (300, 10). */
  lemma SwapThenInvertExample()
    ensures Orient(Transform(true, true, false, 320, 240), Point(10, 20)) == Point(300, 10)
  {
  }
}
