/**
 * The dimension bound: PIL's `thumbnail((m, m))` size rule and the handler's
 * "resize only when an edge exceeds 600" guard. Sizes are computed with exact
 * rationals.
 */
module Resize {
  import opened Imaging

  /** The longest edge the handler lets through unchanged. */
  const MaxEdge: Dim := 600

  function Max(a: nat, b: nat): nat {
    if a >= b then a else b
  }

  function CeilDiv(n: nat, d: nat): nat
    requires d > 0
  {
    if n % d == 0 then n / d else n / d + 1
  }

  /** `max(..., 1)` in PIL's `round_aspect`. */
  function AtLeastOne(n: nat): Dim {
    if n < 1 then 1 else n
  }

  /**
   * `round_aspect(m * w / h, key=lambda n: abs(w / h - n / m))` before its
   * `max(..., 1)`, for a portrait or square image (`n == m * w`, `d == h`):
   * the neighbour of `n/d` closest to it, the floor on a tie.
   */
  function NearestNeighbour(n: nat, d: nat): (pick: nat)
    requires d > 0
    ensures pick == n / d || pick == CeilDiv(n, d)
  {
    var f, c := n / d, CeilDiv(n, d);
    if n - f * d <= c * d - n then f else c
  }

  /**
   * `round_aspect(m / (w / h), key=lambda n: 0 if n == 0 else abs(w / h - m / n))`
   * before its `max(..., 1)`, for a landscape image (`n == m * h`, `d == w`):
   * the neighbour `k` of `n/d` with `m/k` closest to `w/h`, the floor on a tie
   * or when the floor is 0.
   */
  function AspectNeighbour(n: nat, d: nat): (pick: nat)
    requires d > 0
    ensures pick == n / d || pick == CeilDiv(n, d)
  {
    var f, c := n / d, CeilDiv(n, d);
    if f == 0 || n * (c + f) <= 2 * d * f * c then f else c
  }

  /**
   * The size `thumbnail((m, m))` gives a `w`×`h` image: untouched when it
   * already fits; otherwise the longer side (the height, for a square) becomes
   * `m` and the other is rounded by PIL's `round_aspect`.
   */
  function ThumbnailSize(w: Dim, h: Dim, m: Dim): (Dim, Dim) {
    if m >= w && m >= h then (w, h)
    else if w <= h then (AtLeastOne(NearestNeighbour(m * w, h)), m)
    else (m, AtLeastOne(AspectNeighbour(m * h, w)))
  }

  /**
   * `img.thumbnail((m, m), LANCZOS)`: the new size, same mode, same `info`
   * (so a colour key stays), pixels from the filter.
   */
  function Thumbnail(img: Image, m: Dim): (r: Image)
    ensures r.mode == img.mode && r.keyed == img.keyed
    ensures (r.width, r.height) == ThumbnailSize(img.width, img.height, m)
  {
    var size := ThumbnailSize(img.width, img.height, m);
    if size == (img.width, img.height) then img
    else Image(size.0, size.1, img.mode, Filtered, img.keyed)
  }

  /** The guard around every `thumbnail` call in the handler. */
  function BoundEdges(img: Image): (r: Image)
    ensures r.mode == img.mode && r.keyed == img.keyed
  {
    if img.width > MaxEdge || img.height > MaxEdge then Thumbnail(img, MaxEdge) else img
  }

  lemma DivBounds(n: nat, d: nat)
    requires d > 0
    ensures (n / d) * d <= n < (n / d + 1) * d
    ensures n % d == 0 ==> (n / d) * d == n
    ensures n % d != 0 ==> (n / d) * d < n
  {
  }

  lemma MulMono(a: nat, b: nat, c: nat)
    requires b <= c
    ensures a * b <= a * c
  {
  }

  lemma MulLess(a: nat, b: nat, d: nat)
    requires a * d < b * d
    ensures a < b
  {
  }

  /** Either neighbour of `n/d`, floored at 1, is within one step of `n/d` and no larger than a bound `e` with `n <= e*d`. */
  lemma {:induction false} NeighbourBounds(n: nat, d: nat, e: nat, pick: nat)
    requires d > 0 && n > 0 && e >= 1 && n <= e * d
    requires pick == n / d || pick == CeilDiv(n, d)
    ensures 1 <= AtLeastOne(pick) <= e
    ensures AtLeastOne(pick) * d < n + d && n < AtLeastOne(pick) * d + d
  {
    var f := n / d;
    DivBounds(n, d);
    MulLess(f, e + 1, d);
    if pick != f && n % d != 0 {
      assert pick == f + 1;
      MulLess(f, e, d);
    }
  }

  /** A portrait or square image that does not fit: height `m`, width rounded from `m*w/h`. */
  lemma {:induction false} PortraitBounds(w: nat, h: nat, m: nat)
    requires 1 <= w <= h && m >= 1 && h > m
    ensures var w' := AtLeastOne(NearestNeighbour(m * w, h));
      && 1 <= w' <= m && w' <= w
      && w' * h < m * w + h && m * w < w' * h + h
  {
    var n := m * w;
    MulMono(m, 1, w);
    MulMono(m, w, h);
    NeighbourBounds(n, h, m, NearestNeighbour(n, h));
    MulMono(w, m, h);
    NeighbourBounds(n, h, w, NearestNeighbour(n, h));
  }

  /** A landscape image that does not fit: width `m`, height rounded from `m*h/w`. */
  lemma {:induction false} LandscapeBounds(w: nat, h: nat, m: nat)
    requires 1 <= h < w && m >= 1 && w > m
    ensures var h' := AtLeastOne(AspectNeighbour(m * h, w));
      && 1 <= h' <= m && h' <= h
      && h' * w < m * h + w && m * h < h' * w + w
  {
    var n := m * h;
    MulMono(m, 1, h);
    MulMono(m, h, w);
    NeighbourBounds(n, w, m, AspectNeighbour(n, w));
    MulMono(h, m, w);
    NeighbourBounds(n, w, h, AspectNeighbour(n, w));
  }

  /**
   * Thumbnail sizes: both edges end within the box, the longer edge equals
   * the box, no edge grows, and the aspect ratio is kept up to one pixel of
   * the edge that was computed.
   */
  lemma {:induction false} ThumbnailSizeBounds(w: nat, h: nat, m: nat)
    requires w >= 1 && h >= 1 && m >= 1
    requires w > m || h > m
    ensures var (w', h') := ThumbnailSize(w, h, m);
      && 1 <= w' <= m && 1 <= h' <= m
      && Max(w', h') == m
      && w' <= w && h' <= h
      && w' * h < h' * w + Max(w, h) && h' * w < w' * h + Max(w, h)
  {
    if w <= h {
      PortraitBounds(w, h, m);
    } else {
      LandscapeBounds(w, h, m);
    }
  }

  /**
   * The guard: an image within 600×600 is returned exactly; any other image
   * ends with both edges at most 600, the longer exactly 600, no edge
   * larger than before, aspect kept up to rounding, mode unchanged.
   */
  lemma BoundEdgesSpec(img: Image)
    ensures img.width <= MaxEdge && img.height <= MaxEdge ==> BoundEdges(img) == img
    ensures var r := BoundEdges(img);
      && 1 <= r.width <= MaxEdge && 1 <= r.height <= MaxEdge
      && r.width <= img.width && r.height <= img.height
      && r.mode == img.mode
    ensures img.width > MaxEdge || img.height > MaxEdge ==>
      var r := BoundEdges(img);
      && Max(r.width, r.height) == MaxEdge
      && r.width * img.height < r.height * img.width + Max(img.width, img.height)
      && r.height * img.width < r.width * img.height + Max(img.width, img.height)
  {
    if img.width > MaxEdge || img.height > MaxEdge {
      ThumbnailSizeBounds(img.width, img.height, MaxEdge);
    }
  }

  /**
   * Bounding keeps an image well-formed: it is either returned as it was or
   * resampled, keeping its mode and colour key. Opacity is kept only in the
   * sense that a resampled (`Filtered`) raster counts as opaque; this says
   * nothing about resampled pixel values.
   */
  lemma BoundEdgesWellFormed(img: Image)
    requires WellFormed(img)
    ensures WellFormed(BoundEdges(img))
    ensures Opaque(img.raster) ==> Opaque(BoundEdges(img).raster)
    ensures Flat(img) ==> Flat(BoundEdges(img))
  {
  }
}
