/** Screen geometry of the floating key button: the 8px inset from the
    viewport edges, the 48px the button needs from the far edge, clamping a
    coordinate into the allowed band and snapping to a side edge. */
module Geometry {

  /** A screen point in whole pixels. */
  datatype Point = Point(x: int, y: int)

  /** Smallest coordinate the button may take on either axis. */
  const Inset: int := 8
  /** Distance from the far viewport edge at which the button's top-left stops. */
  const FabSpan: int := 48
  /** The snap test looks at the point this far right of the button's left edge. */
  const FabHalf: int := 24
  /** Position used until a stored one is restored. */
  const DefaultPos: Point := Point(16, 16)

  function Max(a: int, b: int): (r: int)
    ensures r >= a && r >= b && (r == a || r == b)
  {
    if a >= b then a else b
  }

  function Min(a: int, b: int): (r: int)
    ensures r <= a && r <= b && (r == a || r == b)
  {
    if a <= b then a else b
  }

  /** Largest allowed coordinate on an axis whose viewport extent is `extent`;
      never below the inset, however small the viewport. */
  function Upper(extent: int): (r: int)
    ensures r >= Inset
    ensures extent - FabSpan >= Inset ==> r == extent - FabSpan
    ensures extent - FabSpan < Inset ==> r == Inset
  {
    Max(Inset, extent - FabSpan)
  }

  /** `Math.min(Math.max(8, v), Math.max(8, extent - 48))`: the point of the
      band [Inset, Upper(extent)] nearest to `v`. */
  function Clamp(v: int, extent: int): (r: int)
    ensures Inset <= r <= Upper(extent)
    ensures Inset <= v <= Upper(extent) ==> r == v
    ensures v < Inset ==> r == Inset
    ensures v > Upper(extent) ==> r == Upper(extent)
  {
    Min(Max(Inset, v), Upper(extent))
  }

  /** Horizontal resting coordinate after a drag: the left inset when the
      point 24px right of the button's left edge lies left of the middle of
      the viewport, the right
      bound otherwise. `x + 24 < width / 2` is written `2 * (x + 24) < width`,
      which is the same test for whole pixels. */
  function SnapX(x: int, width: int): (r: int)
    ensures r == Inset || r == Upper(width)
    ensures 2 * (x + FabHalf) < width ==> r == Inset
    ensures 2 * (x + FabHalf) >= width ==> r == Upper(width)
  {
    if 2 * (x + FabHalf) < width then Inset else Upper(width)
  }

  /** Clamp yields the point of the band nearest to its input. */
  lemma ClampIsNearest(v: int, extent: int, u: int)
    requires Inset <= u <= Upper(extent)
    ensures var r := Clamp(v, extent); (if r >= v then r - v else v - r) <= (if u >= v then u - v else v - u)
  {
  }

  /** Clamping an already clamped coordinate changes nothing. */
  lemma ClampIdempotent(v: int, extent: int)
    ensures Clamp(Clamp(v, extent), extent) == Clamp(v, extent)
  {
  }

  /** A snapped coordinate snaps to itself again once the viewport is wider
      than 64px. */
  lemma SnapStable(x: int, width: int)
    requires width > 2 * (Inset + FabHalf)
    ensures SnapX(SnapX(x, width), width) == SnapX(x, width)
  {
  }

  /** At 56px or less both edge positions are the inset, so snapping is
      stable there too. */
  lemma SnapStableWhenTiny(x: int, width: int)
    requires width <= FabSpan + Inset
    ensures SnapX(SnapX(x, width), width) == SnapX(x, width)
  {
  }

  /** From 57px to 64px a button at x = 0 snaps to the inset, and
      snapping once more carries it to the right bound, which differs. */
  lemma SnapUnstableWhenNarrow(width: int)
    requires FabSpan + Inset < width <= 2 * (Inset + FabHalf)
    ensures SnapX(0, width) == Inset
    ensures SnapX(SnapX(0, width), width) == Upper(width) != Inset
  {
  }

  /** Snapping is stable for every starting coordinate exactly when the
      viewport is at most 56px or more than 64px wide. */
  lemma SnapStableIff(width: int)
    ensures (forall x :: SnapX(SnapX(x, width), width) == SnapX(x, width))
        <==> (width <= FabSpan + Inset || width > 2 * (Inset + FabHalf))
  {
    if FabSpan + Inset < width <= 2 * (Inset + FabHalf) {
      SnapUnstableWhenNarrow(width);
    } else if width <= FabSpan + Inset {
      forall x ensures SnapX(SnapX(x, width), width) == SnapX(x, width) {
        SnapStableWhenTiny(x, width);
      }
    } else {
      forall x ensures SnapX(SnapX(x, width), width) == SnapX(x, width) {
        SnapStable(x, width);
      }
    }
  }
}
