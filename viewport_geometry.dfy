/** The camera arithmetic of the map view (`frontend/src/Map/ClustersMap.js`): mapping
    between the embedding space and the stage, the zoom level and the depth between two
    zoom levels, the layer a sprite belongs to, sprite sizes, and the clamping that keeps
    the window inside the embedding space. Coordinates are JavaScript numbers, modelled
    as reals. */
module ViewGeometry {

  function Min(a: real, b: real): real
  {
    if a <= b then a else b
  }

  function Max(a: real, b: real): real
  {
    if a >= b then a else b
  }

  function MinInt(a: int, b: int): int
  {
    if a <= b then a else b
  }

  function MaxInt(a: int, b: int): int
  {
    if a >= b then a else b
  }

  /** `Math.max(Math.min(v, hi), lo)`. */
  function Clamp(v: real, lo: real, hi: real): (r: real)
    ensures lo <= hi ==> lo <= r <= hi
    ensures lo <= v <= hi ==> r == v
    ensures r == v || r == lo || r == hi
  {
    Max(Min(v, hi), lo)
  }

  /** `Math.round`: halves round up. */
  function Round(v: real): (r: int)
    ensures v - 0.5 < r as real <= v + 0.5
  {
    (v + 0.5).Floor
  }

  /** `Math.sign`. */
  function Sign(v: real): int
  {
    if v > 0.0 then 1 else if v < 0.0 then -1 else 0
  }

  // ---------------------------------------------------------------------------------
  // Mapping coordinates

  /** `mapGlobalCoordinatesToStageCoordinates` along one axis: `pos` is the effective
      position, `extent` the effective size of the window in the embedding space,
      `screen` the stage size, `spriteMax` the largest sprite size and `overflow` half
      the overflow. */
  function ToStage(g: real, pos: real, extent: real, screen: real, spriteMax: real, overflow: real): real
    requires extent != 0.0
  {
    (g - pos) * (screen - spriteMax) / extent - overflow
  }

  /** `mapStageCoordinatesToGlobalCoordinates` along one axis. */
  function ToGlobal(s: real, pos: real, extent: real, screen: real, spriteMax: real, overflow: real): real
    requires screen != spriteMax
  {
    (s + overflow) * extent / (screen - spriteMax) + pos
  }

  /** The two mappings undo each other. */
  lemma MappersInverse(g: real, s: real, pos: real, extent: real, screen: real, spriteMax: real, overflow: real)
    requires extent != 0.0 && screen != spriteMax
    ensures ToGlobal(ToStage(g, pos, extent, screen, spriteMax, overflow), pos, extent, screen, spriteMax, overflow) == g
    ensures ToStage(ToGlobal(s, pos, extent, screen, spriteMax, overflow), pos, extent, screen, spriteMax, overflow) == s
  {
    var k := screen - spriteMax;
    assert (g - pos) * k / extent * extent / k == g - pos;
    assert (s + overflow) * extent / k * k / extent == s + overflow;
  }

  // ---------------------------------------------------------------------------------
  // Zoom level and depth

  /** The zoom level whose tiles are on stage: the next one as soon as the depth is not
      negative, never past the deepest level. */
  function NextZoom(zoomLevel: int, depth: real, maxZoomLevel: int): (r: int)
    ensures r <= maxZoomLevel
    ensures r == zoomLevel || r == zoomLevel + 1 || r == maxZoomLevel
  {
    MinInt(if depth >= 0.0 then zoomLevel + 1 else zoomLevel, maxZoomLevel)
  }

  /** The camera invariant `handleZoom` keeps: the depth lies strictly between -1 and 1,
      the zoom level within the levels of the dataset, the depth never pushes past the
      deepest level or above the coarsest one. */
  predicate CameraZoom(zoomLevel: int, depth: real, maxZoomLevel: int)
  {
    0 <= zoomLevel <= maxZoomLevel && -1.0 < depth < 1.0 &&
    (zoomLevel == maxZoomLevel ==> depth <= 0.0) && (zoomLevel == 0 ==> depth >= 0.0)
  }

  /** The zoom level, depth and applied delta after `handleZoom(delta)`. */
  datatype ZoomState = ZoomState(zoomLevel: int, depth: real, delta: real)

  function ZoomStep(zoomLevel: int, depth: real, maxZoomLevel: int, delta: real): ZoomState
  {
    if zoomLevel == maxZoomLevel && depth + delta > 0.0 then
      ZoomState(zoomLevel, 0.0, if depth < 0.0 then -depth else 0.0)
    else if zoomLevel == 0 && depth + delta < 0.0 then
      ZoomState(zoomLevel, 0.0, if depth > 0.0 then -depth else 0.0)
    else
      var newDepth := Clamp(depth + delta, -1.0, 1.0);
      if newDepth == 1.0 || newDepth == -1.0 then
        var z := zoomLevel + (if newDepth > 0.0 then 1 else -1);
        ZoomState(MaxInt(MinInt(z, maxZoomLevel), 0), 0.0, newDepth - depth)
      else ZoomState(zoomLevel, newDepth, newDepth - depth)
  }

  /** `handleZoom` keeps the camera invariant; a depth that reaches 1 or -1 moves the zoom
      level one step in its direction and resets the depth, and otherwise the zoom level
      stays and the depth moves by the clamped delta. */
  lemma ZoomStepKeeps(zoomLevel: int, depth: real, maxZoomLevel: int, delta: real)
    requires CameraZoom(zoomLevel, depth, maxZoomLevel)
    ensures var s := ZoomStep(zoomLevel, depth, maxZoomLevel, delta);
      CameraZoom(s.zoomLevel, s.depth, maxZoomLevel) &&
      (s.zoomLevel == zoomLevel || s.zoomLevel == zoomLevel + Sign(depth + delta)) &&
      (s.zoomLevel != zoomLevel ==> s.depth == 0.0 && (depth + delta >= 1.0 || depth + delta <= -1.0)) &&
      (s.zoomLevel == zoomLevel && s.depth != 0.0 ==> s.depth == depth + delta)
  {
  }

  /** The clamp of the zoom level in `handleZoom` never acts: a depth of 1 is reached
      only below the deepest level, a depth of -1 only above the coarsest. */
  lemma ZoomClampIdle(zoomLevel: int, depth: real, maxZoomLevel: int, delta: real)
    requires CameraZoom(zoomLevel, depth, maxZoomLevel)
    requires !(zoomLevel == maxZoomLevel && depth + delta > 0.0) && !(zoomLevel == 0 && depth + delta < 0.0)
    ensures var newDepth := Clamp(depth + delta, -1.0, 1.0);
      (newDepth == 1.0 ==> zoomLevel + 1 <= maxZoomLevel) && (newDepth == -1.0 ==> zoomLevel - 1 >= 0)
  {
  }

  // ---------------------------------------------------------------------------------
  // Layers and scale

  /** A sprite goes to the background, and is scaled, when its zoom level is at least the
      zoom level on stage, except at the deepest level with no depth. */
  predicate InBackground(spriteZoom: int, zoomLevel: int, depth: real, maxZoomLevel: int)
  {
    spriteZoom >= NextZoom(zoomLevel, depth, maxZoomLevel) && !(zoomLevel == maxZoomLevel && depth == 0.0)
  }

  /** The branch of `scaleSprite` that applies: no scaling, 2^(depth - 1) for a
      non-negative depth (a factor in [1/2, 1) while the depth stays below 1), or 2^depth
      for a negative one (a factor in (1/2, 1) while the depth stays above -1). The
      factors themselves have a real exponent and are not computed. */
  datatype ScaleKind = Unscaled | HalfToWhole | AboveHalf

  function ScaleOf(spriteZoom: int, zoomLevel: int, depth: real, maxZoomLevel: int): (r: ScaleKind)
    ensures r.Unscaled? <==> !InBackground(spriteZoom, zoomLevel, depth, maxZoomLevel)
    ensures r.HalfToWhole? ==> depth >= 0.0
    ensures r.AboveHalf? ==> depth < 0.0
  {
    if !InBackground(spriteZoom, zoomLevel, depth, maxZoomLevel) then Unscaled
    else if depth >= 0.0 then HalfToWhole else AboveHalf
  }

  /** Once sprites deeper than the zoom level on stage are gone, the test `updateStage`
      uses for a sprite already on stage (`zoom == next_zoom`) agrees with the test used
      when it was added (`zoom >= next_zoom`). */
  lemma LayerTestsAgree(spriteZoom: int, zoomLevel: int, depth: real, maxZoomLevel: int)
    requires spriteZoom <= NextZoom(zoomLevel, depth, maxZoomLevel)
    ensures (spriteZoom == NextZoom(zoomLevel, depth, maxZoomLevel) && !(zoomLevel == maxZoomLevel && depth == 0.0))
      <==> InBackground(spriteZoom, zoomLevel, depth, maxZoomLevel)
  {
  }

  // ---------------------------------------------------------------------------------
  // Sizes

  /** The unscaled size of an image of `w` x `h` on stage, before rounding: as high as a
      sprite may be unless that makes it too wide, then as wide as a sprite may be. */
  function FitSize(w: real, h: real, maxWidth: real, maxHeight: real): (real, real)
    requires w > 0.0 && h > 0.0
  {
    var aspect := w / h;
    if maxHeight * aspect > maxWidth then (maxWidth, maxWidth / aspect) else (maxHeight * aspect, maxHeight)
  }

  /** The size keeps the image's aspect ratio, fits the largest sprite, and fills it in
      one direction. */
  lemma FitSizeMeaning(w: real, h: real, maxWidth: real, maxHeight: real)
    requires w > 0.0 && h > 0.0 && maxWidth > 0.0 && maxHeight > 0.0
    ensures var (fw, fh) := FitSize(w, h, maxWidth, maxHeight);
      fw > 0.0 && fh > 0.0 && fw / fh == w / h && fw <= maxWidth && fh <= maxHeight &&
      (fw == maxWidth || fh == maxHeight)
  {
    var aspect := w / h;
    assert aspect > 0.0;
    if maxHeight * aspect > maxWidth {
      assert maxWidth / aspect < maxHeight by {
        assert maxWidth / aspect * aspect == maxWidth;
      }
      assert maxWidth / (maxWidth / aspect) == aspect;
    } else {
      assert maxHeight * aspect / maxHeight == aspect;
    }
  }

  // ---------------------------------------------------------------------------------
  // Tiles of the window and of sprites

  /** The tile column (or row) holding the window's corner: the tile size comes from the
      bounds including the overflow, and the result is clamped onto the grid. */
  function OriginTile(pos: real, lo: real, hi: real, tiles: nat): (r: int)
    requires lo < hi && tiles >= 1
    ensures 0 <= r < tiles
  {
    var step := (hi - lo) / tiles as real;
    MinInt(MaxInt(((pos - lo) / step).Floor, 0), tiles - 1)
  }

  /** The tile column (or row) of a sprite, from the bounds without overflow, clamped the
      other way round. */
  function SpriteTile(v: real, lo: real, hi: real, tiles: nat): (r: int)
    requires lo < hi && tiles >= 1
    ensures 0 <= r < tiles
  {
    MaxInt(MinInt(((v - lo) * tiles as real / (hi - lo)).Floor, tiles - 1), 0)
  }

  /** Inside the bounds the sprite tile is the tile the sprite lies in. */
  lemma SpriteTileInside(v: real, lo: real, hi: real, tiles: nat)
    requires lo <= v < hi && tiles >= 1
    ensures var t := SpriteTile(v, lo, hi, tiles);
      t as real <= (v - lo) * tiles as real / (hi - lo) < (t + 1) as real
  {
    var n := tiles as real;
    var d := hi - lo;
    var a := v - lo;
    var f := a / d;
    FractionBelowOne(a, d);
    ScaleBelow(f, n);
    var q := f * n;
    assert q < n;
    MulDivSwap(a, n, d);
    assert (v - lo) * tiles as real / (hi - lo) == q;
    var fl := q.Floor;
    assert 0 <= fl < tiles;
    assert MaxInt(MinInt(fl, tiles - 1), 0) == fl;
    assert SpriteTile(v, lo, hi, tiles) == MaxInt(MinInt(fl, tiles - 1), 0);
  }

  lemma FractionBelowOne(a: real, d: real)
    requires 0.0 <= a < d
    ensures 0.0 <= a / d < 1.0
  {
    var r := a / d;
    assert r * d == a;
  }

  lemma MulDivSwap(a: real, n: real, d: real)
    requires d != 0.0
    ensures a * n / d == a / d * n
  {
  }

  lemma ScaleBelow(f: real, n: real)
    requires 0.0 <= f < 1.0 && n > 0.0
    ensures 0.0 <= f * n < n
  {
  }

  // ---------------------------------------------------------------------------------
  // Panning

  /** One axis of `handleMove` and of a momentum frame: the window moves by `shift`
      pixels, converted to the embedding space, and is clamped only if it left the
      bounds. */
  function Pan(pos: real, shift: real, extent: real, screen: real, spriteMax: real, lo: real, hi: real): (r: real)
    requires screen != spriteMax
  {
    var moved := pos + shift * extent / (screen - spriteMax);
    if moved < lo || moved > hi then Clamp(moved, lo, hi) else moved
  }

  /** Panning is clamping the moved window: it stays within the bounds whenever they are
      not empty, and moves freely inside them. */
  lemma PanClamps(pos: real, shift: real, extent: real, screen: real, spriteMax: real, lo: real, hi: real)
    requires screen != spriteMax
    ensures var moved := pos + shift * extent / (screen - spriteMax);
      Pan(pos, shift, extent, screen, spriteMax, lo, hi) == Clamp(moved, lo, hi) &&
      (lo <= hi ==> lo <= Pan(pos, shift, extent, screen, spriteMax, lo, hi) <= hi)
  {
  }

  /** The pixel shift `handleMove` and a momentum frame hand to `updateStage`: the shift
      asked for, or, when the window was clamped, the shift the clamped move amounts to. */
  function PanShift(pos: real, shift: real, extent: real, screen: real, spriteMax: real, lo: real, hi: real): real
    requires screen != spriteMax && extent != 0.0
  {
    var moved := pos + shift * extent / (screen - spriteMax);
    if moved < lo || moved > hi then (Clamp(moved, lo, hi) - pos) * (screen - spriteMax) / extent else shift
  }

  /** Moving every sprite by the pixel shift puts it where mapping it under the panned
      window would: the shift and the pan agree. */
  lemma PanShiftRemaps(g: real, pos: real, shift: real, extent: real, screen: real, spriteMax: real,
                       overflow: real, lo: real, hi: real)
    requires screen != spriteMax && extent != 0.0
    ensures ToStage(g, Pan(pos, shift, extent, screen, spriteMax, lo, hi), extent, screen, spriteMax, overflow) ==
            ToStage(g, pos, extent, screen, spriteMax, overflow) - PanShift(pos, shift, extent, screen, spriteMax, lo, hi)
  {
    PanShiftScales(pos, shift, extent, screen, spriteMax, lo, hi);
    SplitScaled(g, pos, Pan(pos, shift, extent, screen, spriteMax, lo, hi), screen - spriteMax, extent);
  }

  /** The pixel shift is the window's move scaled to the stage. */
  lemma PanShiftScales(pos: real, shift: real, extent: real, screen: real, spriteMax: real, lo: real, hi: real)
    requires screen != spriteMax && extent != 0.0
    ensures (Pan(pos, shift, extent, screen, spriteMax, lo, hi) - pos) * (screen - spriteMax) / extent ==
            PanShift(pos, shift, extent, screen, spriteMax, lo, hi)
  {
    var k := screen - spriteMax;
    var moved := pos + shift * extent / k;
    if !(moved < lo || moved > hi) {
      ScaleBack(shift, extent, k);
      assert Pan(pos, shift, extent, screen, spriteMax, lo, hi) - pos == shift * extent / k;
    }
  }

  lemma ScaleBack(x: real, e: real, k: real)
    requires e != 0.0 && k != 0.0
    ensures x * e / k * k / e == x
  {
  }

  lemma SplitScaled(g: real, pos: real, p: real, k: real, e: real)
    requires e != 0.0
    ensures (g - p) * k / e == (g - pos) * k / e - (p - pos) * k / e
  {
  }

  /** The zoom keeps the point under the mouse in place: scaling the window by `f` about
      the point `g` leaves `g` at the same stage position. */
  lemma ZoomAnchors(g: real, pos: real, f: real, extent: real, screen: real, spriteMax: real, overflow: real)
    requires f > 0.0 && extent != 0.0
    ensures ToStage(g, g - (g - pos) * f, extent * f, screen, spriteMax, overflow) ==
            ToStage(g, pos, extent, screen, spriteMax, overflow)
  {
    var k := screen - spriteMax;
    assert g - (g - (g - pos) * f) == (g - pos) * f;
    assert (g - pos) * f * k / (extent * f) == (g - pos) * k / extent;
  }

  /** `getFinalPosition` along one axis: the window is placed so that the image of size
      `size` sits in the middle of the stage, then clamped to the bounds. */
  function FinalPosition(imagePos: real, size: real, stage: real, overflow: real, extent: real,
                         screen: real, spriteMax: real, lo: real, hi: real): (r: real)
    requires screen != spriteMax
    ensures lo <= hi ==> lo <= r <= hi
  {
    Clamp(imagePos - ((stage - size) / 2.0 + overflow) * (extent / (screen - spriteMax)), lo, hi)
  }

  /** Away from the bounds the image ends up in the middle of the stage. */
  lemma FinalPositionCentres(imagePos: real, size: real, stage: real, overflow: real, extent: real,
                             screen: real, spriteMax: real, lo: real, hi: real)
    requires screen != spriteMax && extent != 0.0
    requires var p := imagePos - ((stage - size) / 2.0 + overflow) * (extent / (screen - spriteMax)); lo <= p <= hi
    ensures var p := FinalPosition(imagePos, size, stage, overflow, extent, screen, spriteMax, lo, hi);
      ToStage(imagePos, p, extent, screen, spriteMax, overflow) == (stage - size) / 2.0
  {
    var k := screen - spriteMax;
    var c := (stage - size) / 2.0 + overflow;
    assert c * (extent / k) * k / extent == c;
  }

  // ---------------------------------------------------------------------------------
  // Momentum

  /** The momentum velocity: capped to the largest velocity, then multiplied. */
  function MomentumVelocity(average: real, factor: real, maxVelocity: real): (r: real)
    requires maxVelocity >= 0.0
    ensures factor >= 0.0 ==> -maxVelocity * factor <= r <= maxVelocity * factor
  {
    Clamp(average, -maxVelocity, maxVelocity) * factor
  }

  // ---------------------------------------------------------------------------------
  // Tickers

  function Abs(v: real): real
  {
    if v >= 0.0 then v else -v
  }

  /** `Math.ceil`. */
  function Ceil(v: real): (r: int)
    ensures v <= r as real < v + 1.0
  {
    -((-v).Floor)
  }

  /** One axis of a translation-ticker frame: a step towards `target`, or `target` itself
      when the step would reach or overshoot it. */
  function TickerStep(pos: real, target: real, step: real): real
  {
    if Sign(step) == Sign(target - pos - step) then pos + step else target
  }

  /** The position `n` steps short of `target`. */
  function StepsShort(target: real, step: real, n: nat): real
  {
    target - n as real * step
  }

  /** `steps` equal steps from `start` cover the way to `target`. */
  lemma StepsCover(start: real, target: real, steps: nat)
    requires steps > 0
    ensures start == StepsShort(target, (target - start) / steps as real, steps)
  {
  }

  /** `n` steps away from the target, one frame leaves `n - 1`: the ticker reaches the
      target exactly at its last frame. */
  lemma TickerStepApproaches(pos: real, target: real, step: real, n: nat)
    requires n >= 1 && pos == StepsShort(target, step, n)
    ensures TickerStep(pos, target, step) == StepsShort(target, step, n - 1)
  {
    var rest := target - pos - step;
    assert rest == (n - 1) as real * step;
    if n > 1 {
      var m := (n - 1) as real;
      assert m >= 1.0;
      if step > 0.0 {
        assert m * step >= step;
      } else if step < 0.0 {
        assert m * step <= step;
      }
      assert Sign(step) == Sign(rest);
    }
  }

  /** One non-final frame of the zoom ticker: the depth moves by `delta` and, once it
      reaches 1 or -1, the zoom level moves one step in its direction and the depth wraps
      back. */
  function ZoomTick(zoomLevel: int, depth: real, delta: real): (int, real)
  {
    var d := depth + delta;
    if Abs(d) >= 1.0 then (zoomLevel + Sign(d), d + (if d > 0.0 then -1.0 else 1.0)) else (zoomLevel, d)
  }

  /** A non-final frame moves the zoom level plus depth by exactly `delta` and, while the
      target lies strictly beyond, keeps the camera invariant. */
  lemma ZoomTickKeeps(zoomLevel: int, depth: real, maxZoomLevel: int, delta: real, target: int)
    requires CameraZoom(zoomLevel, depth, maxZoomLevel) && 0 <= target <= maxZoomLevel
    requires delta == 0.03 || delta == -0.03
    requires delta > 0.0 ==> zoomLevel as real + depth + delta < target as real
    requires delta < 0.0 ==> zoomLevel as real + depth + delta > target as real
    ensures var (z, d) := ZoomTick(zoomLevel, depth, delta);
      CameraZoom(z, d, maxZoomLevel) && z as real + d == zoomLevel as real + depth + delta
  {
  }

  /** The ceiling is the one integer in `[v, v + 1)`. */
  lemma CeilUnique(v: real, n: int)
    requires v <= n as real < v + 1.0
    ensures n == Ceil(v)
  {
    var c := Ceil(v);
    assert n as real - c as real < 1.0 && c as real - n as real < 1.0;
  }

  /** A ticker that starts `steps` steps short of its target and is at the target with
      `left` of them still to take has taken them all, unless it started at the target. */
  lemma LastFrame(start: real, target: real, step: real, steps: nat, left: nat)
    requires left <= steps && start == StepsShort(target, step, steps) && StepsShort(target, step, left) == target
    ensures left == 0 || start == target
  {
    if left > 0 {
      assert left as real * step == 0.0;
      assert step == 0.0;
    }
  }
}
