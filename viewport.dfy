/** The state of the map view (`frontend/src/Map/ClustersMap.js`): a fixed pool of
    sprites lent to the artworks on stage, the tiles cached and pending, the camera, and
    the bookkeeping of touch and pinch gestures. Drawing, textures and the network are
    not modelled; a request is represented by what is sent. */
module Viewport {
  import opened Wrappers
  import opened Tiles
  import opened ViewGeometry
  import opened Prefetch
  import opened Funnel

  const SpritePoolSize: nat := 800
  const NumOfVelocities: nat := 5
  const MaxVelocity: real := 4.0
  const MomentumFrames: nat := 60
  const MultiplicativeFactor: real := 11.0
  const PixelStep: real := 20.0
  const DepthStep: real := 0.03

  /** An artwork as a tile's data lists it. */
  datatype Item = Item(index: int, path: string, width: real, height: real, x: real, y: real, zoom: int)

  /** What the view keeps about an artwork on stage: its place in the embedding space,
      its size, its zoom level and where it was last put on the stage. */
  datatype Info = Info(x: real, y: real, width: real, height: real, path: string, zoom: int,
                       stageX: real, stageY: real)

  /** The sizes fixed when the view is mounted. */
  datatype Screen = Screen(width: real, height: real, maxWidth: real, maxHeight: real,
                           stageWidth: real, stageHeight: real, overflowX: real, overflowY: real,
                           realMinX: real, realMaxX: real, realMinY: real, realMaxY: real,
                           maxZoomLevel: nat)

  predicate ProperScreen(s: Screen)
  {
    s.width > 0.0 && s.height > 0.0 &&
    s.width != s.maxWidth && s.height != s.maxHeight && s.maxWidth > 0.0 && s.maxHeight > 0.0 &&
    s.realMinX < s.realMaxX && s.realMinY < s.realMaxY
  }

  /** The camera: zoom level and depth, the window's corner (the effective position) and
      size in the embedding space, and the bounds the corner may range over. */
  datatype Camera = Camera(zoomLevel: int, depth: real, x: real, y: real, effectiveWidth: real,
                           effectiveHeight: real, minX: real, maxX: real, minY: real, maxY: real)

  /** The gesture bookkeeping: recent velocities, the previous sample (time -1 right
      after a press), the distance moved, the number of fingers pinching, the scale of
      the last pinch event and whether the mouse button is down. */
  datatype Touch = Touch(velocities: seq<(real, real)>, prevTime: int, prevX: real, prevY: real,
                         totalMovement: real, pinching: int, previousScale: real, mouseDown: bool)

  /** Where an artwork lands on the stage. */
  function InfoOf(item: Item, c: Camera, s: Screen): Info
    requires c.effectiveWidth != 0.0 && c.effectiveHeight != 0.0
  {
    Info(item.x, item.y, item.width, item.height, item.path, item.zoom,
         ToStage(item.x, c.x, c.effectiveWidth, s.width, s.maxWidth, s.overflowX),
         ToStage(item.y, c.y, c.effectiveHeight, s.height, s.maxHeight, s.overflowY))
  }

  /** A sprite at this stage position is visible or about to be: its texture is loaded. */
  predicate NearStage(stageX: real, stageY: real, s: Screen)
  {
    var px := Round(stageX) as real;
    var py := Round(stageY) as real;
    -2.0 * s.maxWidth <= px <= s.stageWidth + s.maxWidth && -2.0 * s.maxHeight <= py <= s.stageHeight + s.maxHeight
  }

  /** The artworks `updateStage` keeps: not deeper than the zoom level on stage and in a
      visible tile, the tile computed from the bounds without overflow. */
  predicate Keeps(i: Info, next: nat, visible: seq<Tile>, s: Screen)
    requires ProperScreen(s)
  {
    i.zoom <= next &&
    exists t :: t in visible && t.x == SpriteTile(i.x, s.realMinX, s.realMaxX, Pow2(next)) &&
                                t.y == SpriteTile(i.y, s.realMinY, s.realMaxY, Pow2(next))
  }

  function Restrict<V>(m: map<int, V>, keep: set<int>): (r: map<int, V>)
    ensures r.Keys == m.Keys * keep && forall i :: i in r ==> r[i] == m[i]
  {
    map i | i in m && i in keep :: m[i]
  }

  /** The indexes `updateStage` sends to the server: those whose tile is not cached and
      that are not pending, judged before any of them is marked pending, in their order. */
  function Unrequested(indexes: seq<nat>, cached: set<Tile>, pending: set<nat>): (r: seq<nat>)
    ensures forall i :: i in r <==> i in indexes && TileOf(i) !in cached && i !in pending
    ensures |r| <= |indexes|
  {
    if indexes == [] then []
    else
      var last := indexes[|indexes| - 1];
      assert forall i :: i in indexes <==> i in indexes[..|indexes| - 1] || i == last;
      Unrequested(indexes[..|indexes| - 1], cached, pending) +
        (if TileOf(last) !in cached && last !in pending then [last] else [])
  }

  /** The selection loop of the request part of `updateStage`, judged against the cache
      and the pending set as they were before it. */
  method SelectUnrequested(indexes: seq<nat>, cache: map<Tile, seq<Item>>, pending: set<nat>) returns (batch: seq<nat>)
    ensures batch == Unrequested(indexes, cache.Keys, pending)
  {
    batch := [];
    for k := 0 to |indexes|
      invariant batch == Unrequested(indexes[..k], cache.Keys, pending)
    {
      assert indexes[..k + 1][..k] == indexes[..k];
      if TileOf(indexes[k]) !in cache && indexes[k] !in pending {
        batch := batch + [indexes[k]];
      }
    }
    assert indexes[..|indexes|] == indexes;
  }

  /** The indexes of a response. */
  function Arrived(data: seq<(nat, seq<Item>)>): set<nat>
  {
    set k | k in data :: k.0
  }

  /** The tiles that come back, stored under the key of their index, a later copy of a
      tile overriding an earlier one. */
  function Stored(cache: map<Tile, seq<Item>>, data: seq<(nat, seq<Item>)>): map<Tile, seq<Item>>
  {
    if data == [] then cache
    else Stored(cache, data[..|data| - 1])[TileOf(data[|data| - 1].0) := data[|data| - 1].1]
  }

  /** After a response the cache holds every tile it held before and every tile of the
      response, and nothing else. */
  lemma {:induction false} StoredKeys(cache: map<Tile, seq<Item>>, data: seq<(nat, seq<Item>)>)
    ensures Stored(cache, data).Keys == cache.Keys + (set k | k in data :: TileOf(k.0))
  {
    if data != [] {
      StoredKeys(cache, data[..|data| - 1]);
      assert forall k :: k in data <==> k in data[..|data| - 1] || k == data[|data| - 1];
    }
  }

  /** A tile the response does not mention keeps its cached data. */
  lemma {:induction false} StoredKeeps(cache: map<Tile, seq<Item>>, data: seq<(nat, seq<Item>)>, t: Tile)
    requires t in cache && forall k :: 0 <= k < |data| ==> TileOf(data[k].0) != t
    ensures t in Stored(cache, data) && Stored(cache, data)[t] == cache[t]
  {
    if data != [] {
      StoredKeeps(cache, data[..|data| - 1], t);
    }
  }

  /** A tile of the response holds the data of its last copy in the response. */
  lemma {:induction false} StoredLatest(cache: map<Tile, seq<Item>>, data: seq<(nat, seq<Item>)>, j: nat)
    requires j < |data| && forall k :: j < k < |data| ==> TileOf(data[k].0) != TileOf(data[j].0)
    ensures TileOf(data[j].0) in Stored(cache, data) && Stored(cache, data)[TileOf(data[j].0)] == data[j].1
  {
    if j < |data| - 1 {
      StoredLatest(cache, data[..|data| - 1], j);
    }
  }

  /** The artworks on stage and the sprites lent to them: a sprite, the information
      and the layer (foreground or background) of each, the two containers, the pool of
      unused sprites, and whether a texture is loaded or being fetched. */
  datatype Stage = Stage(pool: seq<nat>, sprites: map<int, nat>, info: map<int, Info>,
                         inForeground: map<int, bool>, foreground: set<int>, background: set<int>,
                         textureLoaded: map<int, bool>, textureRequests: set<int>)
  {
    /** Every artwork on stage has a sprite, its information and its layer; it is a
        child of exactly the container its layer names; the sprites on stage and in the
        pool add up to the pool size; every artwork on stage, and only those, has a texture flag; and a
        texture is requested only once it is flagged as loaded. */
    ghost predicate Consistent()
    {
      sprites.Keys == info.Keys && inForeground.Keys == sprites.Keys &&
      (forall i :: i in foreground <==> i in inForeground && inForeground[i]) &&
      (forall i :: i in background <==> i in inForeground && !inForeground[i]) &&
      |sprites| + |pool| == SpritePoolSize &&
      textureLoaded.Keys == sprites.Keys &&
      (forall i :: i in textureRequests ==> i in textureLoaded && textureLoaded[i])
    }
  }

  /** The stage after `reset`: a full pool and nothing else. */
  function EmptyStage(): (r: Stage)
    ensures r.Consistent() && r.sprites == map[] && |r.pool| == SpritePoolSize
  {
    Stage(FullPool(), map[], map[], map[], {}, {}, map[], {})
  }

  lemma Without<V>(m: map<int, V>, k: int)
    ensures (m - {k}).Keys == m.Keys - {k} && |m - {k}| == if k in m then |m| - 1 else |m|
    ensures forall j :: j in m - {k} ==> (m - {k})[j] == m[j]
  {
    assert |(m - {k}).Keys| == |m - {k}|;
  }

  /** The pool as `reset` refills it: one sprite per slot. */
  function FullPool(): (r: seq<nat>)
    ensures |r| == SpritePoolSize && forall k :: 0 <= k < |r| ==> r[k] == k
  {
    seq(SpritePoolSize, k => k)
  }


  /** What is left of a stage once only the artworks in `keep` remain on it. */
  ghost predicate Restricted(s0: Stage, s1: Stage, keep: set<int>)
  {
    s1.sprites == Restrict(s0.sprites, keep) && s1.info == Restrict(s0.info, keep) &&
    s1.inForeground == Restrict(s0.inForeground, keep) && s1.textureLoaded == Restrict(s0.textureLoaded, keep) &&
    s1.foreground == s0.foreground * keep && s1.background == s0.background * keep &&
    s1.textureRequests == s0.textureRequests * keep && s0.pool <= s1.pool
  }

  lemma HasElement(s: set<int>)
    requires s != {}
    ensures exists x :: x in s
  {
    if forall x :: x !in s {
      assert false;
    }
  }

  lemma RestrictAll<V>(m: map<int, V>, keep: set<int>)
    requires m.Keys <= keep
    ensures Restrict(m, keep) == m
  {
  }

  /** A consistent stage restricted to a superset of its artworks is itself. */
  lemma RestrictedSelf(s: Stage, keep: set<int>)
    requires s.Consistent() && s.sprites.Keys <= keep
    ensures Restricted(s, s, keep)
  {
    RestrictAll(s.sprites, keep);
    RestrictAll(s.info, keep);
    RestrictAll(s.inForeground, keep);
    RestrictAll(s.textureLoaded, keep);
    forall i | i in s.foreground || i in s.background || i in s.textureRequests
      ensures i in keep
    {
      assert i in s.inForeground || i in s.textureLoaded;
    }
    assert s.foreground * keep == s.foreground;
    assert s.background * keep == s.background;
    assert s.textureRequests * keep == s.textureRequests;
  }

  /** Removing one more artwork narrows what is kept by that artwork. */
  lemma RestrictedRemove(s0: Stage, s: Stage, keep: set<int>, index: int)
    requires Restricted(s0, s, keep) && index in s.sprites
    ensures Restricted(s0, Stage(s.pool + [s.sprites[index]], s.sprites - {index}, s.info - {index},
                                 s.inForeground - {index}, s.foreground - {index}, s.background - {index},
                                 s.textureLoaded - {index}, s.textureRequests - {index}), keep - {index})
  {
    assert s0.pool <= s.pool + [s.sprites[index]];
  }

  /** The artworks of a stage that `updateStage` keeps. */
  ghost function Kept(info: map<int, Info>, next: nat, visible: seq<Tile>, s: Screen): set<int>
    requires ProperScreen(s)
  {
    set i | i in info && Keeps(info[i], next, visible, s)
  }

  /** Two records of the same artwork, wherever each puts it on the stage. */
  predicate SameArtwork(a: Info, b: Info)
  {
    a.x == b.x && a.y == b.y && a.width == b.width && a.height == b.height && a.path == b.path && a.zoom == b.zoom
  }

  /** Where `updateStage` puts an artwork already on stage: mapped afresh, or moved by
      the shift it is given. */
  function Moved(i: Info, c: Camera, s: Screen, shift: Option<(real, real)>): (r: Info)
    requires c.effectiveWidth != 0.0 && c.effectiveHeight != 0.0
    ensures SameArtwork(r, i)
  {
    match shift
    case None =>
      i.(stageX := ToStage(i.x, c.x, c.effectiveWidth, s.width, s.maxWidth, s.overflowX),
         stageY := ToStage(i.y, c.y, c.effectiveHeight, s.height, s.maxHeight, s.overflowY))
    case Some(d) => i.(stageX := i.stageX + d.0, stageY := i.stageY + d.1)
  }

  /** No artwork leaves the stage, and each keeps its sprite and its description. */
  ghost predicate Grows(s0: Stage, s1: Stage)
  {
    forall j :: j in s0.sprites ==>
      j in s1.sprites && s1.sprites[j] == s0.sprites[j] &&
      (j in s0.info ==> j in s1.info && SameArtwork(s1.info[j], s0.info[j]))
  }

  /** An artwork on stage keeps its record, layer and texture. */
  ghost predicate Same(s0: Stage, s1: Stage, j: int)
  {
    j in s0.info && j in s0.inForeground && j in s0.textureLoaded ==>
      j in s1.info && s1.info[j] == s0.info[j] &&
      j in s1.inForeground && s1.inForeground[j] == s0.inForeground[j] &&
      j in s1.textureLoaded && s1.textureLoaded[j] == s0.textureLoaded[j] &&
      (j in s1.textureRequests <==> j in s0.textureRequests)
  }

  /** The artworks on stage other than `index` keep their record, layer and texture. */
  ghost predicate Untouched(s0: Stage, s1: Stage, index: int)
  {
    forall j :: j in s0.sprites && j != index ==> Same(s0, s1, j)
  }

  /** An artwork on stage no deeper than the zoom level on stage lies in the layer its
      zoom level calls for. */
  ghost predicate LayerRule(s: Stage, j: int, c: Camera, sc: Screen)
  {
    j in s.info && j in s.inForeground &&
    (s.info[j].zoom <= NextZoom(c.zoomLevel, c.depth, sc.maxZoomLevel) ==>
      s.inForeground[j] == !InBackground(s.info[j].zoom, c.zoomLevel, c.depth, sc.maxZoomLevel))
  }

  /** The texture rule of `updateStage` for an artwork that was `loaded` and `requested`:
      near the stage its texture is flagged and asked for unless it already was; away
      from it a request in flight is aborted and the flag cleared. */
  predicate TextureRule(near: bool, loaded: bool, requested: bool, loaded1: bool, requested1: bool)
  {
    if near then loaded1 && (requested1 <==> requested || !loaded)
    else !requested1 && (loaded1 <==> loaded && !requested)
  }

  /** The stage after lending the last sprite of the pool to a newcomer. */
  function WithNewcomer(s: Stage, index: int, placed: Info, fg: bool, near: bool): Stage
    requires |s.pool| > 0
  {
    Stage(s.pool[..|s.pool| - 1], s.sprites[index := s.pool[|s.pool| - 1]],
          s.info[index := placed], s.inForeground[index := fg],
          if fg then s.foreground + {index} else s.foreground,
          if fg then s.background else s.background + {index},
          s.textureLoaded[index := near],
          if near then s.textureRequests + {index} else s.textureRequests)
  }

  /** Lending a sprite to a newcomer keeps a stage consistent... */
  lemma AddedConsistent(s: Stage, index: int, placed: Info, fg: bool, near: bool)
    requires s.Consistent() && |s.pool| > 0 && index !in s.sprites
    ensures WithNewcomer(s, index, placed, fg, near).Consistent()
  {
  }

  /** ... gives the newcomer the last sprite of the pool, its record, layer and texture
      flag ... */
  lemma AddedHolds(s: Stage, index: int, placed: Info, fg: bool, near: bool)
    requires |s.pool| > 0
    ensures var t := WithNewcomer(s, index, placed, fg, near);
      t.sprites.Keys == s.sprites.Keys + {index} && t.pool == s.pool[..|s.pool| - 1] &&
      t.sprites[index] == s.pool[|s.pool| - 1] && t.info[index] == placed &&
      t.inForeground[index] == fg && t.textureLoaded[index] == near &&
      (index in t.textureRequests <==> near || index in s.textureRequests)
  {
  }

  /** ... and touches nothing else. */
  lemma AddedFrames(s: Stage, index: int, placed: Info, fg: bool, near: bool)
    requires s.Consistent() && |s.pool| > 0 && index !in s.sprites
    ensures Grows(s, WithNewcomer(s, index, placed, fg, near))
    ensures Untouched(s, WithNewcomer(s, index, placed, fg, near), index)
  {
    var t := WithNewcomer(s, index, placed, fg, near);
    forall j | j in s.sprites
      ensures Same(s, t, j) && j in t.sprites && t.sprites[j] == s.sprites[j]
    {
      assert j != index;
    }
  }

  /** Updating one artwork's record, layer and texture keeps a stage consistent. */
  lemma Updated(s: Stage, index: int, moved: Info, fg: bool, loaded: bool, requests: set<int>)
    requires s.Consistent() && index in s.sprites
    requires requests - {index} == s.textureRequests - {index} && (index in requests ==> loaded)
    requires SameArtwork(moved, s.info[index])
    ensures var t := WithUpdate(s, index, moved, fg, loaded, requests);
      t.Consistent() && Grows(s, t) && Untouched(s, t, index)
  {
    UpdatedConsistent(s, index, moved, fg, loaded, requests);
    UpdatedFrames(s, index, moved, fg, loaded, requests);
  }

  /** The stage after updating one artwork's record, layer, texture flag and the
      requests. */
  function WithUpdate(s: Stage, index: int, moved: Info, fg: bool, loaded: bool, requests: set<int>): Stage
  {
    Stage(s.pool, s.sprites, s.info[index := moved], s.inForeground[index := fg],
          if fg then s.foreground + {index} else s.foreground - {index},
          if fg then s.background - {index} else s.background + {index},
          s.textureLoaded[index := loaded], requests)
  }

  lemma UpdatedConsistent(s: Stage, index: int, moved: Info, fg: bool, loaded: bool, requests: set<int>)
    requires s.Consistent() && index in s.sprites
    requires requests - {index} == s.textureRequests - {index} && (index in requests ==> loaded)
    ensures WithUpdate(s, index, moved, fg, loaded, requests).Consistent()
  {
    var t := WithUpdate(s, index, moved, fg, loaded, requests);
    assert t.info.Keys == s.info.Keys && t.inForeground.Keys == s.inForeground.Keys;
    assert t.textureLoaded.Keys == s.textureLoaded.Keys;
    forall i | i in requests
      ensures i in t.textureLoaded && t.textureLoaded[i]
    {
      if i != index {
        assert i in requests - {index};
      }
    }
  }

  lemma UpdatedFrames(s: Stage, index: int, moved: Info, fg: bool, loaded: bool, requests: set<int>)
    requires s.Consistent() && index in s.sprites
    requires requests - {index} == s.textureRequests - {index}
    requires SameArtwork(moved, s.info[index])
    ensures var t := WithUpdate(s, index, moved, fg, loaded, requests);
      Grows(s, t) && Untouched(s, t, index)
  {
    var t := WithUpdate(s, index, moved, fg, loaded, requests);
    forall j | j in s.sprites && j != index
      ensures (j in requests <==> j in s.textureRequests) && SameArtwork(t.info[j], s.info[j])
    {
      assert j in requests <==> j in requests - {index};
      assert j in s.textureRequests <==> j in s.textureRequests - {index};
    }
  }

  /** The texture flag and request after `updateStage` looks at an artwork. */
  function TextureStep(near: bool, loaded: bool, requested: bool): (r: (bool, bool))
    ensures TextureRule(near, loaded, requested, r.0, r.1)
    ensures r.1 ==> r.0
  {
    if near then (true, requested || !loaded)
    else if requested then (false, false)
    else (loaded, false)
  }

  /** The stage after `updateStage` has looked at an artwork already on stage: it is
      moved, put in the layer the exact-zoom test picks, and its texture flag and
      request follow the texture rule. */
  function Refresh(s: Stage, index: int, c: Camera, sc: Screen, shift: Option<(real, real)>): (r: Stage)
    requires s.Consistent() && index in s.sprites
    requires c.effectiveWidth != 0.0 && c.effectiveHeight != 0.0
    ensures r.Consistent() && Grows(s, r) && Untouched(s, r, index)
    ensures r.sprites == s.sprites && r.pool == s.pool
    ensures r.info == s.info[index := Moved(s.info[index], c, sc, shift)]
    ensures r.inForeground[index] <==>
      !(s.info[index].zoom == NextZoom(c.zoomLevel, c.depth, sc.maxZoomLevel) &&
        !(c.zoomLevel == sc.maxZoomLevel && c.depth == 0.0))
    ensures TextureRule(NearStage(r.info[index].stageX, r.info[index].stageY, sc), s.textureLoaded[index],
                        index in s.textureRequests, r.textureLoaded[index], index in r.textureRequests)
  {
    var moved := Moved(s.info[index], c, sc, shift);
    var fg := !(s.info[index].zoom == NextZoom(c.zoomLevel, c.depth, sc.maxZoomLevel) &&
                !(c.zoomLevel == sc.maxZoomLevel && c.depth == 0.0));
    var t := TextureStep(NearStage(moved.stageX, moved.stageY, sc), s.textureLoaded[index],
                         index in s.textureRequests);
    var requests := if t.1 then s.textureRequests + {index} else s.textureRequests - {index};
    Updated(s, index, moved, fg, t.0, requests);
    WithUpdate(s, index, moved, fg, t.0, requests)
  }

  /** The stage after `addSpriteToStage`: the newcomer holds the last sprite of the pool,
      sits where the camera maps it, in the layer its zoom level calls for, with its
      texture flagged and asked for exactly when it is near the stage. */
  function Newcomer(s: Stage, item: Item, c: Camera, sc: Screen): (r: Stage)
    requires s.Consistent() && |s.pool| > 0 && item.index !in s.sprites
    requires c.effectiveWidth != 0.0 && c.effectiveHeight != 0.0
    ensures r.Consistent() && Grows(s, r) && Untouched(s, r, item.index)
    ensures r.sprites.Keys == s.sprites.Keys + {item.index} && r.pool == s.pool[..|s.pool| - 1]
    ensures r.sprites[item.index] == s.pool[|s.pool| - 1] && r.info[item.index] == InfoOf(item, c, sc)
    ensures r.inForeground[item.index] <==> !InBackground(item.zoom, c.zoomLevel, c.depth, sc.maxZoomLevel)
    ensures var i := r.info[item.index];
      (r.textureLoaded[item.index] <==> NearStage(i.stageX, i.stageY, sc)) &&
      (item.index in r.textureRequests <==> NearStage(i.stageX, i.stageY, sc))
  {
    var i := InfoOf(item, c, sc);
    var fg := !InBackground(item.zoom, c.zoomLevel, c.depth, sc.maxZoomLevel);
    var near := NearStage(i.stageX, i.stageY, sc);
    AddedConsistent(s, item.index, i, fg, near);
    AddedFrames(s, item.index, i, fg, near);
    AddedHolds(s, item.index, i, fg, near);
    WithNewcomer(s, item.index, i, fg, near)
  }

  /** One artwork of a visible tile in `updateStage`: a newcomer is given a sprite from
      the pool, which fails when the pool is empty; an artwork already on stage is
      refreshed. */
  function PlacedItem(s: Stage, item: Item, c: Camera, sc: Screen, shift: Option<(real, real)>): (r: (Stage, bool))
    requires s.Consistent() && c.effectiveWidth != 0.0 && c.effectiveHeight != 0.0
    ensures r.0.Consistent()
    ensures r.1 <==> item.index in s.sprites || |s.pool| > 0
    ensures !r.1 ==> r.0 == s
  {
    if item.index in s.sprites then (Refresh(s, item.index, c, sc, shift), true)
    else if |s.pool| == 0 then (s, false)
    else (Newcomer(s, item, c, sc), true)
  }

  /** The artworks of one cached tile in `updateStage`, in order; it stops at the first
      newcomer for which the pool has no sprite left. */
  function PlacedTile(s: Stage, data: seq<Item>, c: Camera, sc: Screen, shift: Option<(real, real)>): (r: (Stage, bool))
    requires s.Consistent() && c.effectiveWidth != 0.0 && c.effectiveHeight != 0.0
    ensures r.0.Consistent()
    decreases |data|
  {
    if data == [] then (s, true)
    else
      var p := PlacedItem(s, data[0], c, sc, shift);
      if !p.1 then p else PlacedTile(p.0, data[1..], c, sc, shift)
  }

  /** The artworks of the visible tiles whose data is cached, tile after tile; it stops
      where a tile stops. */
  function PlacedTiles(s: Stage, visible: seq<Tile>, cache: map<Tile, seq<Item>>, c: Camera, sc: Screen,
                       shift: Option<(real, real)>): (r: (Stage, bool))
    requires s.Consistent() && c.effectiveWidth != 0.0 && c.effectiveHeight != 0.0
    ensures r.0.Consistent()
    decreases |visible|
  {
    if visible == [] then (s, true)
    else
      var p := if visible[0] in cache then PlacedTile(s, cache[visible[0]], c, sc, shift) else (s, true);
      if !p.1 then p else PlacedTiles(p.0, visible[1..], cache, c, sc, shift)
  }

  /** One step of `PlacedTiles`. */
  lemma PlacedTilesUnfold(s: Stage, visible: seq<Tile>, cache: map<Tile, seq<Item>>, c: Camera, sc: Screen,
                          shift: Option<(real, real)>)
    requires s.Consistent() && c.effectiveWidth != 0.0 && c.effectiveHeight != 0.0 && visible != []
    ensures visible[0] !in cache ==>
      PlacedTiles(s, visible, cache, c, sc, shift) == PlacedTiles(s, visible[1..], cache, c, sc, shift)
    ensures visible[0] in cache ==>
      var p := PlacedTile(s, cache[visible[0]], c, sc, shift);
      PlacedTiles(s, visible, cache, c, sc, shift) == if !p.1 then p else PlacedTiles(p.0, visible[1..], cache, c, sc, shift)
  {
  }

  /** One step of `PlacedTile`. */
  lemma PlacedTileUnfold(s: Stage, data: seq<Item>, c: Camera, sc: Screen, shift: Option<(real, real)>)
    requires s.Consistent() && c.effectiveWidth != 0.0 && c.effectiveHeight != 0.0 && data != []
    ensures var p := PlacedItem(s, data[0], c, sc, shift);
      PlacedTile(s, data, c, sc, shift) == if !p.1 then p else PlacedTile(p.0, data[1..], c, sc, shift)
  {
  }

  /** Whether one of some artworks has index `j`. */
  predicate Mentions(items: seq<Item>, j: int)
  {
    items != [] && (items[|items| - 1].index == j || Mentions(items[..|items| - 1], j))
  }

  lemma {:induction false} MentionsJoin(a: seq<Item>, b: seq<Item>, j: int)
    ensures Mentions(a + b, j) <==> Mentions(a, j) || Mentions(b, j)
  {
    if b != [] {
      assert (a + b)[..|a + b| - 1] == a + b[..|b| - 1];
      MentionsJoin(a, b[..|b| - 1], j);
    } else {
      assert a + b == a;
    }
  }

  lemma {:induction false} MentionsAt(items: seq<Item>, j: int) returns (n: nat)
    requires Mentions(items, j)
    ensures n < |items| && items[n].index == j
  {
    if items[|items| - 1].index == j {
      n := |items| - 1;
    } else {
      n := MentionsAt(items[..|items| - 1], j);
    }
  }

  /** The artworks of the visible tiles whose data is cached, tile after tile. */
  function Items(visible: seq<Tile>, cache: map<Tile, seq<Item>>): seq<Item>
  {
    if visible == [] then []
    else (if visible[0] in cache then cache[visible[0]] else []) + Items(visible[1..], cache)
  }

  /** The number of visible tiles whose data is not cached yet. */
  function Unavailable(visible: seq<Tile>, cache: map<Tile, seq<Item>>): (r: nat)
    ensures r <= |visible|
  {
    if visible == [] then 0
    else
      var init := visible[..|visible| - 1];
      Unavailable(init, cache) + (if visible[|visible| - 1] in cache then 0 else 1)
  }

  /** No tile is counted unavailable exactly when every visible tile is cached. */
  lemma {:induction false} UnavailableNone(visible: seq<Tile>, cache: map<Tile, seq<Item>>)
    ensures Unavailable(visible, cache) == 0 <==> forall t :: t in visible ==> t in cache
  {
    if visible != [] {
      var init := visible[..|visible| - 1];
      assert forall t :: t in visible <==> t in init || t == visible[|visible| - 1];
      UnavailableNone(init, cache);
    }
  }

  lemma GrowsTrans(a: Stage, b: Stage, c: Stage)
    requires Grows(a, b) && Grows(b, c)
    ensures Grows(a, c)
  {
  }

  /** What placing `items` one after another has done to a stage `s0`: they are all
      on stage, each in the layer its zoom level calls for, nothing else came on stage,
      nothing left it, and the artworks not among them are untouched. */
  ghost predicate Progress(s0: Stage, s1: Stage, items: seq<Item>, c: Camera, sc: Screen)
  {
    (forall m :: 0 <= m < |items| ==> items[m].index in s1.sprites && LayerRule(s1, items[m].index, c, sc)) &&
    (forall j :: j in s1.sprites ==> j in s0.sprites || Mentions(items, j)) &&
    Grows(s0, s1) &&
    (forall j :: j in s0.sprites && !Mentions(items, j) ==> Same(s0, s1, j))
  }

  lemma ProgressStart(s: Stage, c: Camera, sc: Screen)
    ensures Progress(s, s, [], c, sc)
  {
  }

  /** Progress over one run of artworks and then another is progress over both. */
  lemma ProgressJoin(s0: Stage, s1: Stage, s2: Stage, a: seq<Item>, b: seq<Item>, c: Camera, sc: Screen)
    requires s1.Consistent() && Progress(s0, s1, a, c, sc) && Progress(s1, s2, b, c, sc)
    ensures Progress(s0, s2, a + b, c, sc)
  {
    GrowsTrans(s0, s1, s2);
    forall j
      ensures Mentions(a + b, j) <==> Mentions(a, j) || Mentions(b, j)
    {
      MentionsJoin(a, b, j);
    }
    forall m | 0 <= m < |a + b|
      ensures (a + b)[m].index in s2.sprites && LayerRule(s2, (a + b)[m].index, c, sc)
    {
      if m < |a| {
        var j := a[m].index;
        if !Mentions(b, j) {
          assert Same(s1, s2, j);
        } else {
          var n := MentionsAt(b, j);
        }
      } else {
        assert (a + b)[m] == b[m - |a|];
      }
    }
    forall j | j in s0.sprites && !Mentions(a + b, j)
      ensures Same(s0, s2, j)
    {
      assert Same(s0, s1, j) && Same(s1, s2, j);
    }
  }

  /** Progress over some artworks followed by a run over more that either completes
      or stops on an empty pool. */
  lemma ProgressThen(s0: Stage, s1: Stage, r: (Stage, bool), a: seq<Item>, b: seq<Item>, c: Camera, sc: Screen)
    requires s1.Consistent() && Progress(s0, s1, a, c, sc)
    requires r.1 ==> Progress(s1, r.0, b, c, sc)
    requires !r.1 ==> |r.0.pool| == 0 && Grows(s1, r.0)
    ensures r.1 ==> Progress(s0, r.0, a + b, c, sc)
    ensures !r.1 ==> |r.0.pool| == 0 && Grows(s0, r.0)
  {
    if r.1 {
      ProgressJoin(s0, s1, r.0, a, b, c, sc);
    } else {
      GrowsTrans(s0, s1, r.0);
    }
  }

  /** A placed artwork is on stage in the layer its zoom level calls for, and nothing
      else changes. */
  lemma PlacedItemProgress(s: Stage, item: Item, c: Camera, sc: Screen, shift: Option<(real, real)>)
    requires s.Consistent() && c.effectiveWidth != 0.0 && c.effectiveHeight != 0.0
    ensures var r := PlacedItem(s, item, c, sc, shift);
      r.1 ==> Progress(s, r.0, [item], c, sc)
  {
    var r := PlacedItem(s, item, c, sc, shift);
    assert [item][..0] == [];
    assert forall j :: Mentions([item], j) <==> j == item.index;
    if item.index in s.sprites {
      var z := s.info[item.index].zoom;
      if z <= NextZoom(c.zoomLevel, c.depth, sc.maxZoomLevel) {
        LayerTestsAgree(z, c.zoomLevel, c.depth, sc.maxZoomLevel);
      }
    }
  }

  /** A tile placed in full has all its artworks on stage in their layers, brought in
      nothing else and left the other artworks as they were; a tile stops only when the
      pool is empty. */
  lemma {:induction false} PlacedTileProgress(s: Stage, data: seq<Item>, c: Camera, sc: Screen,
                                              shift: Option<(real, real)>)
    requires s.Consistent() && c.effectiveWidth != 0.0 && c.effectiveHeight != 0.0
    ensures var r := PlacedTile(s, data, c, sc, shift);
      (r.1 ==> Progress(s, r.0, data, c, sc)) && (!r.1 ==> |r.0.pool| == 0 && Grows(s, r.0))
    decreases |data|
  {
    if data == [] {
      ProgressStart(s, c, sc);
    } else {
      var rest := data[1..];
      assert [data[0]] + rest == data;
      var p := PlacedItem(s, data[0], c, sc, shift);
      PlacedTileUnfold(s, data, c, sc, shift);
      if p.1 {
        PlacedItemProgress(s, data[0], c, sc, shift);
        PlacedTileProgress(p.0, rest, c, sc, shift);
        ProgressThen(s, p.0, PlacedTile(p.0, rest, c, sc, shift), [data[0]], rest, c, sc);
      } else {
        assert p.0 == s;
      }
    }
  }

  /** Placing the visible tiles in full puts every artwork of their cached data on stage
      in its layer and nothing else, and leaves the other artworks as they were; it stops
      only when the pool is empty. */
  lemma {:induction false} PlacedTilesProgress(s: Stage, visible: seq<Tile>, cache: map<Tile, seq<Item>>,
                                               c: Camera, sc: Screen, shift: Option<(real, real)>)
    requires s.Consistent() && c.effectiveWidth != 0.0 && c.effectiveHeight != 0.0
    ensures var r := PlacedTiles(s, visible, cache, c, sc, shift);
      (r.1 ==> Progress(s, r.0, Items(visible, cache), c, sc)) && (!r.1 ==> |r.0.pool| == 0 && Grows(s, r.0))
    decreases |visible|
  {
    if visible == [] {
      ProgressStart(s, c, sc);
    } else {
      var first := if visible[0] in cache then cache[visible[0]] else [];
      var p := if visible[0] in cache then PlacedTile(s, cache[visible[0]], c, sc, shift) else (s, true);
      if visible[0] in cache {
        PlacedTileProgress(s, cache[visible[0]], c, sc, shift);
      } else {
        ProgressStart(s, c, sc);
      }
      if p.1 {
        PlacedTilesProgress(p.0, visible[1..], cache, c, sc, shift);
        var r := PlacedTiles(p.0, visible[1..], cache, c, sc, shift);
        ProgressThen(s, p.0, r, first, Items(visible[1..], cache), c, sc);
      }
    }
  }

  /** What the stage holds once `updateStage` has run in full, starting from `s0`: every
      artwork of the visible tiles' data is on stage in its layer; an artwork is on stage
      exactly when it was kept or is among that data; and a kept artwork not among that
      data keeps its record, layer and texture. */
  ghost predicate Settled(s0: Stage, s1: Stage, keep: set<int>, items: seq<Item>, c: Camera, sc: Screen)
  {
    (forall m :: 0 <= m < |items| ==> items[m].index in s1.sprites && LayerRule(s1, items[m].index, c, sc)) &&
    (forall j :: j in s1.sprites <==> j in keep || Mentions(items, j)) &&
    (forall j :: j in keep && !Mentions(items, j) ==> Same(s0, s1, j))
  }

  /** Removing what is not kept and then placing the visible data settles the stage. */
  lemma Settles(s0: Stage, mid: Stage, s1: Stage, keep: set<int>, items: seq<Item>, c: Camera, sc: Screen)
    requires mid.Consistent() && keep <= s0.sprites.Keys
    requires Restricted(s0, mid, keep) && Progress(mid, s1, items, c, sc)
    ensures Settled(s0, s1, keep, items, c, sc)
  {
    forall j
      ensures j in s1.sprites <==> j in keep || Mentions(items, j)
    {
      if Mentions(items, j) {
        var n := MentionsAt(items, j);
      }
      if j in keep {
        assert j in mid.sprites;
      }
    }
    forall j | j in keep && !Mentions(items, j)
      ensures Same(s0, s1, j)
    {
      assert j in mid.sprites && Same(mid, s1, j);
    }
  }

  /** What asks `updateStage` to run: an interaction, the translation ticker or the zoom
      ticker. */
  datatype Caller = Interaction | TranslationTicker | ZoomTicker

  /** The tiles each caller asks the server for around the window. */
  function Wanted(caller: Caller, x: int, y: int, z: nat, maxZoom: nat): seq<Tile>
  {
    match caller
    case Interaction => FunnelTiles(x, y, z, maxZoom, 3)
    case TranslationTicker => Neighbourhood(x, y, z)
    case ZoomTicker => ZoomTickerTiles(x, y, z, maxZoom)
  }

  /** The zoom level kept on stage and the tile holding the window's corner at that
      level: always a tile of the grid, never deeper than the dataset. */
  function Window(c: Camera, sc: Screen): (r: (int, int, nat))
    requires ProperCamera(c, sc)
    ensures OnGrid(Tile(r.0, r.1, r.2)) && r.2 <= sc.maxZoomLevel
    ensures r.2 == NextZoom(c.zoomLevel, c.depth, sc.maxZoomLevel)
  {
    var next := NextZoom(c.zoomLevel, c.depth, sc.maxZoomLevel);
    (OriginTile(c.x, c.minX, c.maxX, Pow2(next)), OriginTile(c.y, c.minY, c.maxY, Pow2(next)), next)
  }

  /** Tile indexes known to be non-negative, as naturals. */
  function AsNats(s: seq<int>): (r: seq<nat>)
    requires forall k :: 0 <= k < |s| ==> s[k] >= 0
    ensures |r| == |s| && forall i: int :: i in r <==> i in s
  {
    if s == [] then []
    else
      var r := [s[0] as nat] + AsNats(s[1..]);
      assert forall i: int :: i in s <==> i == s[0] || i in s[1..];
      r
  }

  /** No wanted tile has a negative coordinate, and the tiles each caller wants all lie
      on the grid except for the interaction funnel, whose ring (with the bottom guard as
      written) passes the grid's last row when the window reaches it and a level lies
      below. */
  lemma WantedFacts(caller: Caller, x: int, y: int, z: nat, maxZoom: nat)
    requires OnGrid(Tile(x, y, z)) && z <= maxZoom
    ensures AllNatural(Wanted(caller, x, y, z, maxZoom))
    ensures AllOnGrid(Wanted(caller, x, y, z, maxZoom)) <==>
      caller != Interaction || y + 4 != Pow2(z) || z == maxZoom
  {
    match caller {
      case Interaction =>
        FunnelNatural(x, y, z, maxZoom, 3);
        FunnelOnGridAsWritten(x, y, z, maxZoom);
      case TranslationTicker =>
        TickerFetchLists(x, y, z, maxZoom, {});
        OnGridNatural(Wanted(caller, x, y, z, maxZoom));
      case ZoomTicker =>
        TickerFetchLists(x, y, z, maxZoom, {});
        OnGridNatural(Wanted(caller, x, y, z, maxZoom));
    }
  }

  /** The batch `updateStage` sends from the index list of the tiles `wanted`: each index
      is the number of an uncached wanted tile, names a tile the cache lacks and is not
      pending; every on-grid wanted tile that is neither cached nor pending is asked for;
      and when all wanted tiles lie on the grid, every index names a wanted tile. */
  lemma BatchMeaning(wanted: seq<Tile>, cache: set<Tile>, pending: set<nat>)
    requires AllNatural(wanted)
    ensures forall k :: 0 <= k < |Indexes(Uncached(wanted, cache))| ==> Indexes(Uncached(wanted, cache))[k] >= 0
    ensures var b := Unrequested(AsNats(Indexes(Uncached(wanted, cache))), cache, pending);
      (forall i: nat :: i in b ==>
        TileOf(i) !in cache && i !in pending && exists t :: t in wanted && t !in cache && IndexOf(t) == i) &&
      (forall t :: t in wanted && OnGrid(t) && t !in cache && IndexOf(t) !in pending ==> IndexOf(t) in b) &&
      (AllOnGrid(wanted) ==> forall i: nat :: i in b ==> TileOf(i) in wanted)
  {
    var u := Uncached(wanted, cache);
    var r := Indexes(u);
    forall k | 0 <= k < |r|
      ensures r[k] >= 0 && u[k] in wanted && u[k] !in cache && IndexOf(u[k]) == r[k]
    {
      assert u[k] in u;
      NaturalIndex(u[k]);
    }
    var b := Unrequested(AsNats(r), cache, pending);
    forall i: nat | i in b
      ensures exists t :: t in wanted && t !in cache && IndexOf(t) == i
    {
      var k :| 0 <= k < |r| && r[k] == i;
      assert u[k] in wanted && u[k] !in cache && IndexOf(u[k]) == i;
    }
    forall t | t in wanted && OnGrid(t) && t !in cache && IndexOf(t) !in pending
      ensures IndexOf(t) in b
    {
      var k :| 0 <= k < |u| && u[k] == t;
      assert r[k] == IndexOf(t);
      IndexRoundTrip(t);
    }
    if AllOnGrid(wanted) {
      forall i: nat | i in b
        ensures TileOf(i) in wanted
      {
        var k :| 0 <= k < |r| && r[k] == i;
        IndexRoundTrip(u[k]);
      }
    }
  }

  lemma NaturalIndex(t: Tile)
    requires t.x >= 0 && t.y >= 0
    ensures IndexOf(t) >= 0
  {
    assert Pow2(t.zoom) * t.x >= 0;
  }

  /** As written, when the window reaches the grid's last row from row 3 or below, the
      interaction funnel lists the off-grid tile (2x, 2^(z+1)) of the ring's bottom row.
      Its number is that of the on-grid tile (2x + 1, 0) at level z + 1, which the funnel
      does not list, so with an empty cache the request asks for a tile nobody wanted. */
  lemma InteractionAsksOutsideFunnel(x: int, y: int, z: nat, maxZoom: nat)
    requires OnGrid(Tile(x, y, z)) && y + 4 == Pow2(z) && 3 <= y && z + 1 <= maxZoom
    ensures var w := Wanted(Interaction, x, y, z, maxZoom);
      IndexOf(Tile(2 * x + 1, 0, z + 1)) in Indexes(Uncached(w, {})) &&
      OnGrid(Tile(2 * x + 1, 0, z + 1)) && Tile(2 * x + 1, 0, z + 1) !in w
  {
    var w := Wanted(Interaction, x, y, z, maxZoom);
    var off := Tile(2 * x, (y + 4) * 2, z + 1);
    assert Pow2(z + 1) == 2 * Pow2(z);
    OffGridListed(x, y, z, maxZoom);
    UncachedNoCache(w);
    IndexListed(w, off);
    AliasIndex(x, y, z);
    AliasNotListed(x, y, z, maxZoom);
  }

  lemma IndexListed(tiles: seq<Tile>, t: Tile)
    requires t in tiles
    ensures IndexOf(t) in Indexes(tiles)
  {
    var k :| 0 <= k < |tiles| && tiles[k] == t;
    assert Indexes(tiles)[k] == IndexOf(t);
  }

  lemma OffGridListed(x: int, y: int, z: nat, maxZoom: nat)
    requires OnGrid(Tile(x, y, z)) && y + 4 == Pow2(z) && z + 1 <= maxZoom
    ensures Tile(2 * x, (y + 4) * 2, z + 1) in Wanted(Interaction, x, y, z, maxZoom)
  {
    BottomRowOffGrid(x, y, z, maxZoom);
    assert Tile(2 * x, (y + 4) * 2, z + 1) in NextLevel(x, y, z, maxZoom, 3);
  }

  /** Row 2^(z+1) of column 2x at level z + 1 numbers like row 0 of column 2x + 1. */
  lemma AliasIndex(x: int, y: int, z: nat)
    requires y + 4 == Pow2(z)
    ensures IndexOf(Tile(2 * x, (y + 4) * 2, z + 1)) == IndexOf(Tile(2 * x + 1, 0, z + 1))
  {
    var m := Pow2(z + 1);
    assert m == 2 * Pow2(z);
    assert m * (2 * x) + m == m * (2 * x + 1);
  }

  lemma AliasNotListed(x: int, y: int, z: nat, maxZoom: nat)
    requires OnGrid(Tile(x, y, z)) && 3 <= y && z + 1 <= maxZoom
    ensures Tile(2 * x + 1, 0, z + 1) !in Wanted(Interaction, x, y, z, maxZoom)
  {
    var asked := Tile(2 * x + 1, 0, z + 1);
    var window := Neighbourhood(x, y, z);
    var next := NextLevel(x, y, z, maxZoom, 3);
    var deeper := Children(next, z + 1, maxZoom);
    var coarse := CoarseLevels(x, y, z);
    assert Wanted(Interaction, x, y, z, maxZoom) == window + next + deeper + coarse;
    NeighbourhoodMembers(x, y, z, asked);
    AliasNotInNext(x, y, z, maxZoom);
    NextLevelFacts(x, y, z, maxZoom, 3);
    ChildrenLevel(next, z + 1, maxZoom);
    CoarseFacts(x, y, z);
    assert asked !in coarse;
  }

  lemma AliasNotInNext(x: int, y: int, z: nat, maxZoom: nat)
    requires OnGrid(Tile(x, y, z)) && 3 <= y && z + 1 <= maxZoom
    ensures Tile(2 * x + 1, 0, z + 1) !in NextLevel(x, y, z, maxZoom, 3)
  {
    var asked := Tile(2 * x + 1, 0, z + 1);
    var window := Neighbourhood(x, y, z);
    WindowFacts(x, y, z);
    NeighbourhoodMembers(x, y, z, Parent(asked));
    ChildrenMembers(window, z, maxZoom, asked);
    RingShape(x, y, z, maxZoom, 3);
  }

  /** The smallest such map: the window at tile (0, 4) of level 3 with levels up to 5
      asks for tile (1, 0) of level 4 through the number of the off-grid tile (0, 16). */
  lemma InteractionAsksOutsideFunnelExample()
    ensures var w := Wanted(Interaction, 0, 4, 3, 5);
      IndexOf(Tile(1, 0, 4)) in Indexes(Uncached(w, {})) && OnGrid(Tile(1, 0, 4)) && Tile(1, 0, 4) !in w
  {
    var x, y, z, maxZoom := 0, 4, 3, 5;
    assert Pow2(z) == 8;
    InteractionAsksOutsideFunnel(x, y, z, maxZoom);
  }

  /** The camera keeps positive extents, non-empty bounds and the zoom invariant. */
  predicate ProperCamera(c: Camera, s: Screen)
  {
    c.effectiveWidth > 0.0 && c.effectiveHeight > 0.0 && c.minX < c.maxX && c.minY < c.maxY &&
    CameraZoom(c.zoomLevel, c.depth, s.maxZoomLevel)
  }

  /** At most two fingers pinch, and no more velocities are kept than a shift leaves. */
  predicate ProperTouch(t: Touch)
  {
    0 <= t.pinching <= 2 && |t.velocities| <= NumOfVelocities + 1
  }

  // ---------------------------------------------------------------------------------
  // Gestures

  /** The velocity between the previous sample and one at `(x, y)` at time `now`: the
      displacement over the elapsed milliseconds, counted as at least one. */
  function Velocity(t: Touch, x: real, y: real, now: int): (r: (real, real))
    ensures r.0 * MaxInt(now - t.prevTime, 1) as real == x - t.prevX
    ensures r.1 * MaxInt(now - t.prevTime, 1) as real == y - t.prevY
  {
    var dt := MaxInt(now - t.prevTime, 1) as real;
    ((x - t.prevX) / dt, (y - t.prevY) / dt)
  }

  /** The velocities kept once `v` is recorded: the oldest is dropped when more than
      five are kept, and `v` comes last. */
  function Recorded(vs: seq<(real, real)>, v: (real, real)): (r: seq<(real, real)>)
    ensures |vs| > NumOfVelocities ==> |r| == |vs|
    ensures |vs| <= NumOfVelocities ==> |r| == |vs| + 1
    ensures r[|r| - 1] == v && r[..|r| - 1] == vs[|vs| - (|r| - 1)..]
  {
    if |vs| > NumOfVelocities then vs[1..] + [v] else vs + [v]
  }

  /** `updateVelocities`: the first sample after a press only records where and when it
      was taken; a later one also records its velocity and adds the distance moved. */
  function Sampled(t: Touch, x: real, y: real, now: int, distance: real): (r: Touch)
    requires distance >= 0.0
    ensures r.prevX == x && r.prevY == y && r.prevTime == now
    ensures r.totalMovement >= t.totalMovement
    ensures t.prevTime == -1 ==> r.velocities == t.velocities && r.totalMovement == t.totalMovement
    ensures t.prevTime != -1 ==>
      |r.velocities| > 0 && r.velocities[|r.velocities| - 1] == Velocity(t, x, y, now) &&
      r.totalMovement == t.totalMovement + distance
    ensures ProperTouch(t) ==> ProperTouch(r)
    ensures r.pinching == t.pinching && r.previousScale == t.previousScale && r.mouseDown == t.mouseDown
  {
    if t.prevTime == -1 then t.(prevTime := now, prevX := x, prevY := y)
    else
      t.(velocities := Recorded(t.velocities, Velocity(t, x, y, now)),
         totalMovement := t.totalMovement + distance, prevTime := now, prevX := x, prevY := y)
  }

  /** The sum of the velocities, component by component. */
  function Total(vs: seq<(real, real)>): (real, real)
  {
    if vs == [] then (0.0, 0.0)
    else
      var t := Total(vs[..|vs| - 1]);
      (t.0 + vs[|vs| - 1].0, t.1 + vs[|vs| - 1].1)
  }

  /** `v` added up `n` times: `n * v` (see `RepeatedIsProduct`). */
  function Repeated(n: nat, v: real): real
  {
    if n == 0 then 0.0 else Repeated(n - 1, v) + v
  }

  lemma {:induction false} RepeatedIsProduct(n: nat, v: real)
    ensures Repeated(n, v) == n as real * v
  {
    if n > 0 {
      RepeatedIsProduct(n - 1, v);
    }
  }

  /** The sum of velocities lying between `lo` and `hi` lies between `lo` and `hi` added
      up once per velocity: their average lies between `lo` and `hi`. */
  lemma {:induction false} TotalWithin(vs: seq<(real, real)>, lo: real, hi: real)
    requires forall i :: 0 <= i < |vs| ==> lo <= vs[i].0 <= hi && lo <= vs[i].1 <= hi
    ensures var t := Total(vs); Repeated(|vs|, lo) <= t.0 <= Repeated(|vs|, hi)
    ensures var t := Total(vs); Repeated(|vs|, lo) <= t.1 <= Repeated(|vs|, hi)
  {
    if vs != [] {
      var init := vs[..|vs| - 1];
      assert forall i :: 0 <= i < |init| ==> init[i] == vs[i];
      TotalWithin(init, lo, hi);
    }
  }

  /** The average velocity of a release: `None` when the gesture does not glide (it
      moved less than `minMovement`, its last sample is older than 100 ms, or no
      velocity was recorded). */
  function Fling(t: Touch, minMovement: real, now: int): (r: Option<(real, real)>)
    ensures r.Some? <==> t.totalMovement >= minMovement && now - t.prevTime <= 100 && |t.velocities| > 0
    ensures r.Some? ==>
      r.value.0 * |t.velocities| as real == Total(t.velocities).0 &&
      r.value.1 * |t.velocities| as real == Total(t.velocities).1
  {
    if t.totalMovement < minMovement || now - t.prevTime > 100 || |t.velocities| == 0 then None
    else
      var n := |t.velocities| as real;
      Some((Total(t.velocities).0 / n, Total(t.velocities).1 / n))
  }

  /** The multiplicative factor of a touch release: the stage width over 30, at most 11,
      rounded. */
  function TouchFactor(sc: Screen): real
  {
    Round(Min(sc.stageWidth / 30.0, MultiplicativeFactor)) as real
  }

  // ---------------------------------------------------------------------------------
  // Moving the window

  /** The window panned by a pixel shift on each axis, its corner kept within the
      bounds less the window. */
  function Panned(c: Camera, sc: Screen, shiftX: real, shiftY: real): (r: Camera)
    requires ProperScreen(sc)
    ensures r == c.(x := r.x, y := r.y)
    ensures c.minX <= c.maxX - c.effectiveWidth ==> c.minX <= r.x <= c.maxX - c.effectiveWidth
    ensures c.minY <= c.maxY - c.effectiveHeight ==> c.minY <= r.y <= c.maxY - c.effectiveHeight
  {
    PanClamps(c.x, shiftX, c.effectiveWidth, sc.width, sc.maxWidth, c.minX, c.maxX - c.effectiveWidth);
    PanClamps(c.y, shiftY, c.effectiveHeight, sc.height, sc.maxHeight, c.minY, c.maxY - c.effectiveHeight);
    c.(x := Pan(c.x, shiftX, c.effectiveWidth, sc.width, sc.maxWidth, c.minX, c.maxX - c.effectiveWidth),
       y := Pan(c.y, shiftY, c.effectiveHeight, sc.height, sc.maxHeight, c.minY, c.maxY - c.effectiveHeight))
  }

  /** The window's corner sits on a bound along both axes. */
  predicate AtCorner(c: Camera)
  {
    (c.x == c.minX || c.x == c.maxX - c.effectiveWidth) && (c.y == c.minY || c.y == c.maxY - c.effectiveHeight)
  }

  /** A velocity after `k` momentum frames, each of which keeps 97 percent of it. */
  function Decay(v: real, k: nat): real
  {
    if k == 0 then v else Decay(v, k - 1) * 0.97
  }

  /** The window after `n` momentum frames from `c` at velocity `(vx, vy)`: each frame pans
      by the rounded opposite of the decayed velocity. Only the corner moves, and after a
      frame it lies within the bounds. */
  function Glide(c: Camera, sc: Screen, vx: real, vy: real, n: nat): (r: Camera)
    requires ProperScreen(sc)
    ensures r == c.(x := r.x, y := r.y)
    ensures n > 0 && c.minX <= c.maxX - c.effectiveWidth ==> c.minX <= r.x <= c.maxX - c.effectiveWidth
    ensures n > 0 && c.minY <= c.maxY - c.effectiveHeight ==> c.minY <= r.y <= c.maxY - c.effectiveHeight
  {
    if n == 0 then c
    else
      Panned(Glide(c, sc, vx, vy, n - 1), sc, Round(-Decay(vx, n - 1)) as real, Round(-Decay(vy, n - 1)) as real)
  }

  /** What `momentumTranslation(v, factor)` does to the window: nothing when both
      components are below 0.4; otherwise it glides at the capped, multiplied velocity for
      60 frames, or until the first frame that leaves the corner on a bound on both axes. */
  ghost predicate Glided(c0: Camera, c1: Camera, sc: Screen, v: (real, real), factor: real, frames: nat)
    requires ProperScreen(sc)
  {
    var ux := MomentumVelocity(v.0, factor, MaxVelocity);
    var uy := MomentumVelocity(v.1, factor, MaxVelocity);
    frames <= MomentumFrames && c1 == Glide(c0, sc, ux, uy, frames) &&
    (frames == 0 <==> Abs(v.0) < 0.4 && Abs(v.1) < 0.4) &&
    (0 < frames < MomentumFrames ==> AtCorner(c1)) &&
    (forall k: nat :: 1 <= k < frames ==> !AtCorner(Glide(c0, sc, ux, uy, k)))
  }

  /** `exp2` stands for the power of two, which is positive. */
  ghost predicate Positive(exp2: real -> real)
  {
    forall e :: exp2(e) > 0.0
  }

  lemma PositiveAt(exp2: real -> real, e: real)
    requires Positive(exp2)
    ensures exp2(e) > 0.0
  {
  }

  /** A glide after `frames` frames, stopped or not: see `Glided`. */
  ghost predicate Gliding(c0: Camera, c: Camera, sc: Screen, ux: real, uy: real, frames: nat, stop: bool)
    requires ProperScreen(sc)
  {
    frames <= MomentumFrames && c == Glide(c0, sc, ux, uy, frames) &&
    (stop ==> frames > 0 && AtCorner(c)) &&
    (frames > 0 && !stop ==> !AtCorner(c)) &&
    (forall k: nat :: 1 <= k < frames ==> !AtCorner(Glide(c0, sc, ux, uy, k)))
  }

  lemma GlidingStep(c0: Camera, c: Camera, sc: Screen, ux: real, uy: real, frames: nat)
    requires ProperScreen(sc) && Gliding(c0, c, sc, ux, uy, frames, false) && frames < MomentumFrames
    ensures var c1 := Panned(c, sc, Round(-Decay(ux, frames)) as real, Round(-Decay(uy, frames)) as real);
      Gliding(c0, c1, sc, ux, uy, frames + 1, AtCorner(c1))
  {
  }

  lemma GlidingEnds(c0: Camera, c: Camera, sc: Screen, v: (real, real), factor: real, frames: nat, stop: bool)
    requires ProperScreen(sc) && !(Abs(v.0) < 0.4 && Abs(v.1) < 0.4)
    requires Gliding(c0, c, sc, MomentumVelocity(v.0, factor, MaxVelocity), MomentumVelocity(v.1, factor, MaxVelocity), frames, stop)
    requires frames == MomentumFrames || stop
    ensures Glided(c0, c, sc, v, factor, frames)
  {
  }

  /** `changeLimitsOfEmbeddingSpace`: the window is the embedding space over `power` (two
      to the zoom level plus depth), and the bounds widen on both sides by the overflow,
      measured in the embedding space; nothing else changes. */
  function Limits(c: Camera, sc: Screen, power: real): (r: Camera)
    requires ProperScreen(sc) && power > 0.0
    ensures r == c.(effectiveWidth := r.effectiveWidth, effectiveHeight := r.effectiveHeight,
                    minX := r.minX, maxX := r.maxX, minY := r.minY, maxY := r.maxY)
    ensures r.effectiveWidth > 0.0 && r.effectiveHeight > 0.0
    ensures r.minX <= sc.realMinX && sc.realMaxX <= r.maxX && r.minX + r.maxX == sc.realMinX + sc.realMaxX
    ensures r.minY <= sc.realMinY && sc.realMaxY <= r.maxY && r.minY + r.maxY == sc.realMinY + sc.realMaxY
  {
    var w := (sc.realMaxX - sc.realMinX) / power;
    var h := (sc.realMaxY - sc.realMinY) / power;
    var ox := Max(sc.overflowX * w / sc.width, 0.0);
    var oy := Max(sc.overflowY * h / sc.height, 0.0);
    c.(effectiveWidth := w, effectiveHeight := h,
       minX := sc.realMinX - ox, maxX := sc.realMaxX + ox, minY := sc.realMinY - oy, maxY := sc.realMaxY + oy)
  }

  /** The window spans the embedding's extent divided by the power of two. */
  lemma LimitsScale(c: Camera, sc: Screen, power: real)
    requires ProperScreen(sc) && power > 0.0
    ensures Limits(c, sc, power).effectiveWidth * power == sc.realMaxX - sc.realMinX
    ensures Limits(c, sc, power).effectiveHeight * power == sc.realMaxY - sc.realMinY
  {
  }

  /** The window's size and bounds are those of its zoom level plus depth, `exp2` being
      the power of two. */
  predicate Sized(c: Camera, sc: Screen, exp2: real -> real)
    requires ProperScreen(sc)
  {
    var p := exp2(c.zoomLevel as real + c.depth);
    p > 0.0 && SizedFor(c, Limits(c, sc, p))
  }

  /** The window has the size and bounds of `l`. */
  predicate SizedFor(c: Camera, l: Camera)
  {
    c.effectiveWidth == l.effectiveWidth && c.effectiveHeight == l.effectiveHeight &&
    c.minX == l.minX && c.maxX == l.maxX && c.minY == l.minY && c.maxY == l.maxY
  }

  /** Where a point at `x` lands when the view is scaled by `f` about `g`. */
  function Toward(g: real, x: real, f: real): real
  {
    g - (g - x) * f
  }
  /** The window `r` has its corner where scaling the window `c` by `f` about `g` puts
      it, clamped to `r`'s bounds. */
  predicate MovedToward(r: Camera, c: Camera, g: (real, real), f: real)
  {
    r.x == Clamp(Toward(g.0, c.x, f), r.minX, r.maxX - r.effectiveWidth) &&
    r.y == Clamp(Toward(g.1, c.y, f), r.minY, r.maxY - r.effectiveHeight)
  }


  /** Zooming about `g` by `d` keeps `g` where it was on the stage: with both windows
      sized for their zoom, the corner moved to `g - (g - x) * 2^-d` maps `g` as before. */
  lemma ZoomKeepsAnchor(c0: Camera, c1: Camera, sc: Screen, exp2: real -> real, d: real, g: real)
    requires ProperScreen(sc) && Sized(c0, sc, exp2) && Sized(c1, sc, exp2)
    requires c1.zoomLevel as real + c1.depth == c0.zoomLevel as real + c0.depth + d
    requires exp2(c1.zoomLevel as real + c1.depth) * exp2(-d) == exp2(c0.zoomLevel as real + c0.depth)
    requires exp2(-d) > 0.0 && c1.x == Toward(g, c0.x, exp2(-d))
    ensures ToStage(g, c1.x, c1.effectiveWidth, sc.width, sc.maxWidth, sc.overflowX) ==
            ToStage(g, c0.x, c0.effectiveWidth, sc.width, sc.maxWidth, sc.overflowX)
  {
    SizedWidths(c0, c1, sc, exp2, d);
    var f := exp2(-d);
    ZoomAnchors(g, c0.x, f, c0.effectiveWidth, sc.width, sc.maxWidth, sc.overflowX);
  }

  /** Windows sized for zooms `d` apart differ in width by the factor `2^-d`. */
  lemma SizedWidths(c0: Camera, c1: Camera, sc: Screen, exp2: real -> real, d: real)
    requires ProperScreen(sc) && Sized(c0, sc, exp2) && Sized(c1, sc, exp2)
    requires exp2(c1.zoomLevel as real + c1.depth) * exp2(-d) == exp2(c0.zoomLevel as real + c0.depth)
    ensures c1.effectiveWidth == c0.effectiveWidth * exp2(-d)
  {
    SizedSpan(c0, sc, exp2);
    SizedSpan(c1, sc, exp2);
    WidthScales(c0.effectiveWidth, c1.effectiveWidth, exp2(c0.zoomLevel as real + c0.depth),
                exp2(c1.zoomLevel as real + c1.depth), exp2(-d), sc.realMaxX - sc.realMinX);
  }

  /** A sized window times its power spans the embedding space. */
  lemma SizedSpan(c: Camera, sc: Screen, exp2: real -> real)
    requires ProperScreen(sc) && Sized(c, sc, exp2)
    ensures c.effectiveWidth * exp2(c.zoomLevel as real + c.depth) == sc.realMaxX - sc.realMinX
  {
    LimitsScale(c, sc, exp2(c.zoomLevel as real + c.depth));
  }

  /** Two windows spanning the same extent at powers `p0 = p1 * f` differ in width by
      the factor `f`. */
  lemma WidthScales(w0: real, w1: real, p0: real, p1: real, f: real, extent: real)
    requires w0 * p0 == extent && w1 * p1 == extent && p1 * f == p0 && p1 > 0.0
    ensures w1 == w0 * f
  {
    assert w1 * p1 == (w0 * f) * p1;
  }

  /** The border branches of `handleZoom`: zooming in at the deepest level or out at
      the coarsest brings the depth back to 0 and resizes the window for it. */
  function ZoomedAtBorder(c: Camera, sc: Screen, exp2: real -> real): Camera
    requires ProperScreen(sc) && Positive(exp2)
  {
    PositiveAt(exp2, c.zoomLevel as real + 0.0);
    Limits(c.(depth := 0.0), sc, exp2(c.zoomLevel as real + 0.0))
  }

  lemma ZoomedAtBorderKeeps(c: Camera, sc: Screen, delta: real, exp2: real -> real)
    requires ProperScreen(sc) && ProperCamera(c, sc) && Positive(exp2)
    requires (c.zoomLevel == sc.maxZoomLevel && c.depth + delta > 0.0) || (c.zoomLevel == 0 && c.depth + delta < 0.0)
    ensures var r := ZoomedAtBorder(c, sc, exp2); var z := ZoomStep(c.zoomLevel, c.depth, sc.maxZoomLevel, delta);
      ProperCamera(r, sc) && Sized(r, sc, exp2) && r.zoomLevel == z.zoomLevel && r.depth == z.depth &&
      r.x == c.x && r.y == c.y
  {
    ZoomStepKeeps(c.zoomLevel, c.depth, sc.maxZoomLevel, delta);
  }

  /** The other branch of `handleZoom(delta)`, about the anchor `g`: the depth moves by
      the delta, clamped to [-1, 1]; the window is resized for the new depth; its corner
      moves to `g - (g - x) * 2^-applied` within the new bounds; and a depth of 1 or -1
      becomes a step of the zoom level. */
  function ZoomedAbout(c: Camera, sc: Screen, delta: real, g: (real, real), exp2: real -> real): Camera
    requires ProperScreen(sc) && Positive(exp2)
  {
    var newDepth := Clamp(c.depth + delta, -1.0, 1.0);
    var applied := newDepth - c.depth;
    PositiveAt(exp2, c.zoomLevel as real + newDepth);
    var l := Limits(c.(depth := newDepth), sc, exp2(c.zoomLevel as real + newDepth));
    var moved := l.(x := Max(Min(Toward(g.0, c.x, exp2(-applied)), l.maxX - l.effectiveWidth), l.minX),
                    y := Max(Min(Toward(g.1, c.y, exp2(-applied)), l.maxY - l.effectiveHeight), l.minY));
    if newDepth == 1.0 || newDepth == -1.0 then
      moved.(zoomLevel := MaxInt(MinInt(c.zoomLevel + Sign(newDepth), sc.maxZoomLevel), 0), depth := 0.0)
    else moved
  }

  lemma ZoomedAboutKeeps(c: Camera, sc: Screen, delta: real, g: (real, real), exp2: real -> real)
    requires ProperScreen(sc) && ProperCamera(c, sc) && Positive(exp2)
    requires !(c.zoomLevel == sc.maxZoomLevel && c.depth + delta > 0.0) && !(c.zoomLevel == 0 && c.depth + delta < 0.0)
    ensures var r := ZoomedAbout(c, sc, delta, g, exp2); var z := ZoomStep(c.zoomLevel, c.depth, sc.maxZoomLevel, delta);
      r.zoomLevel == z.zoomLevel && r.depth == z.depth
    ensures ProperCamera(ZoomedAbout(c, sc, delta, g, exp2), sc)
    ensures Sized(ZoomedAbout(c, sc, delta, g, exp2), sc, exp2)
    ensures MovedToward(ZoomedAbout(c, sc, delta, g, exp2), c, g, exp2(-ZoomStep(c.zoomLevel, c.depth, sc.maxZoomLevel, delta).delta))
  {
    ZoomStepKeeps(c.zoomLevel, c.depth, sc.maxZoomLevel, delta);
    ZoomClampIdle(c.zoomLevel, c.depth, sc.maxZoomLevel, delta);
    var newDepth := Clamp(c.depth + delta, -1.0, 1.0);
    PositiveAt(exp2, c.zoomLevel as real + newDepth);
    var p := exp2(c.zoomLevel as real + newDepth);
    var l := Limits(c.(depth := newDepth), sc, p);
    var f := exp2(-(newDepth - c.depth));
    var r := ZoomedAbout(c, sc, delta, g, exp2);
    assert ZoomStep(c.zoomLevel, c.depth, sc.maxZoomLevel, delta).delta == newDepth - c.depth;
    assert SizedFor(r, l);
    var z := ZoomStep(c.zoomLevel, c.depth, sc.maxZoomLevel, delta);
    assert -z.delta == -(newDepth - c.depth);
    assert exp2(-z.delta) == f;
    assert r.x == Clamp(Toward(g.0, c.x, f), l.minX, l.maxX - l.effectiveWidth);
    assert r.y == Clamp(Toward(g.1, c.y, f), l.minY, l.maxY - l.effectiveHeight);
    if newDepth == 1.0 || newDepth == -1.0 {
      assert r.zoomLevel == c.zoomLevel + Sign(newDepth) && r.depth == 0.0;
    } else {
      assert r.zoomLevel == c.zoomLevel && r.depth == newDepth;
    }
    assert r.zoomLevel as real + r.depth == c.zoomLevel as real + newDepth;
    assert SizedFor(r, Limits(r, sc, p));
  }

  // ---------------------------------------------------------------------------------
  // The sprite under the mouse

  /** A sprite as the mouse sees it: its box on the stage, its depth order, and where
      its artwork lies in the embedding space. */
  datatype SpriteBox = SpriteBox(x: real, y: real, width: real, height: real, zIndex: real,
                                 globalX: real, globalY: real)

  /** `testContains`. */
  predicate Contains(b: SpriteBox, mx: real, my: real)
  {
    mx >= b.x && mx <= b.x + b.width && my >= b.y && my <= b.y + b.height
  }

  const NoSprite: real := -100.0

  /** `getGlobalCoordinatesOfSpriteUnderMouse`, returning the position of the sprite in
      `boxes`: the first of the boxes under the mouse with the highest depth order, if
      that order is above -100. */
  method SpriteUnderMouse(boxes: seq<SpriteBox>, mx: real, my: real) returns (hit: Option<nat>)
    ensures hit.None? <==> forall i :: 0 <= i < |boxes| && Contains(boxes[i], mx, my) ==> boxes[i].zIndex <= NoSprite
    ensures hit.Some? ==>
      hit.value < |boxes| && Contains(boxes[hit.value], mx, my) && boxes[hit.value].zIndex > NoSprite &&
      (forall i :: 0 <= i < |boxes| && Contains(boxes[i], mx, my) ==> boxes[i].zIndex <= boxes[hit.value].zIndex) &&
      (forall i :: 0 <= i < hit.value && Contains(boxes[i], mx, my) ==> boxes[i].zIndex < boxes[hit.value].zIndex)
  {
    hit := None;
    var top := NoSprite;
    for k := 0 to |boxes|
      invariant hit.None? ==> top == NoSprite
      invariant hit.Some? ==> hit.value < k && Contains(boxes[hit.value], mx, my) && top == boxes[hit.value].zIndex > NoSprite
      invariant forall i :: 0 <= i < k && Contains(boxes[i], mx, my) ==> boxes[i].zIndex <= top
      invariant hit.Some? ==> forall i :: 0 <= i < hit.value && Contains(boxes[i], mx, my) ==> boxes[i].zIndex < top
    {
      if Contains(boxes[k], mx, my) && boxes[k].zIndex > top {
        top := boxes[k].zIndex;
        hit := Some(k);
      }
    }
  }

  /** The point `handleZoom` zooms about: the global position of the sprite under the
      mouse, or the global position of the mouse itself when there is none. */
  method ZoomAnchor(boxes: seq<SpriteBox>, mx: real, my: real, c: Camera, sc: Screen) returns (g: (real, real))
    requires sc.width != sc.maxWidth && sc.height != sc.maxHeight
    ensures (exists i :: 0 <= i < |boxes| && Contains(boxes[i], mx, my) && boxes[i].zIndex > NoSprite &&
                         g == (boxes[i].globalX, boxes[i].globalY)) ||
            ((forall i :: 0 <= i < |boxes| && Contains(boxes[i], mx, my) ==> boxes[i].zIndex <= NoSprite) &&
             g == (ToGlobal(mx, c.x, c.effectiveWidth, sc.width, sc.maxWidth, sc.overflowX),
                   ToGlobal(my, c.y, c.effectiveHeight, sc.height, sc.maxHeight, sc.overflowY)))
  {
    var hit := SpriteUnderMouse(boxes, mx, my);
    if hit.None? {
      g := (ToGlobal(mx, c.x, c.effectiveWidth, sc.width, sc.maxWidth, sc.overflowX),
            ToGlobal(my, c.y, c.effectiveHeight, sc.height, sc.maxHeight, sc.overflowY));
    } else {
      g := (boxes[hit.value].globalX, boxes[hit.value].globalY);
    }
  }

  /** The loop of `handleMouseUpOrLeave` and `handleTouchEnd` that adds up the
      velocities. */
  method SumVelocities(vs: seq<(real, real)>) returns (sumX: real, sumY: real)
    ensures (sumX, sumY) == Total(vs)
  {
    sumX, sumY := 0.0, 0.0;
    for k := 0 to |vs|
      invariant (sumX, sumY) == Total(vs[..k])
    {
      assert vs[..k + 1][..k] == vs[..k];
      sumX, sumY := sumX + vs[k].0, sumY + vs[k].1;
    }
    assert vs[..|vs|] == vs;
  }

  /** The zoom delta of a wheel event: a thousandth of the opposite of its vertical
      delta, capped at 0.12 either way. */
  function WheelDelta(deltaY: real): (r: real)
    ensures -0.12 <= r <= 0.12
    ensures -0.12 < r < 0.12 ==> r * 1000.0 == -deltaY
  {
    Max(Min(-deltaY / 1000.0, 0.12), -0.12)
  }

  /** `getFinalPosition`: the window corner that shows `image`, at the size of its sprite
      rounded to pixels, in the middle of the stage, kept within the bounds. */
  function FinalWindow(image: Item, c: Camera, sc: Screen): (r: (real, real))
    requires ProperScreen(sc) && image.width > 0.0 && image.height > 0.0
    ensures c.minX <= c.maxX - c.effectiveWidth ==> c.minX <= r.0 <= c.maxX - c.effectiveWidth
    ensures c.minY <= c.maxY - c.effectiveHeight ==> c.minY <= r.1 <= c.maxY - c.effectiveHeight
  {
    var size := FitSize(image.width, image.height, sc.maxWidth, sc.maxHeight);
    (FinalPosition(image.x, Round(size.0) as real, sc.stageWidth, sc.overflowX, c.effectiveWidth,
                   sc.width, sc.maxWidth, c.minX, c.maxX - c.effectiveWidth),
     FinalPosition(image.y, Round(size.1) as real, sc.stageHeight, sc.overflowY, c.effectiveHeight,
                   sc.height, sc.maxHeight, c.minY, c.maxY - c.effectiveHeight))
  }

  /** How many pixels the stage moves, along the axis where it moves most, when the
      window corner goes to `f`. */
  function PixelShift(c: Camera, sc: Screen, f: (real, real)): real
    requires c.effectiveWidth > 0.0 && c.effectiveHeight > 0.0
  {
    Max(Abs((f.0 - c.x) * (sc.width - sc.maxWidth) / c.effectiveWidth),
        Abs((f.1 - c.y) * (sc.height - sc.maxHeight) / c.effectiveHeight))
  }

  /** A translation of a pixel or more moves the corner. */
  lemma NoShift(c: Camera, sc: Screen, f: (real, real))
    requires c.effectiveWidth > 0.0 && c.effectiveHeight > 0.0
    ensures f.0 == c.x && f.1 == c.y ==> PixelShift(c, sc, f) == 0.0
  {
    if f.0 == c.x && f.1 == c.y {
      assert PixelShift(c, sc, f) == 0.0;
    }
  }

  /** The stage shift, in pixels, of one translation frame (see `TickerStep`). */
  function TickerShift(pos: real, target: real, step: real, pixels: real, extent: real): real
    requires extent != 0.0
  {
    if Sign(step) == Sign(target - pos - step) then step * pixels / extent
    else (target - pos) * pixels / extent
  }

  /** A zoom ticker with no step to take is already at its target. */
  lemma SameLevel(zoomLevel: int, depth: real, target: int)
    requires -1.0 < depth < 1.0 && Ceil(Abs(target as real - zoomLevel as real - depth) / DepthStep) == 0
    ensures zoomLevel == target && depth == 0.0
  {
    var v := Abs(target as real - zoomLevel as real - depth) / DepthStep;
    assert v <= 0.0;
    assert depth == (target - zoomLevel) as real;
  }

  /** While more than one frame is left, a full step of the zoom ticker stays short of
      its target. */
  lemma ZoomProgress(total: real, steps: nat, frames: nat)
    requires steps == Ceil(Abs(total) / DepthStep) && frames + 1 < steps
    ensures total > 0.0 ==> (frames + 1) as real * DepthStep < total
    ensures total < 0.0 ==> -((frames + 1) as real * DepthStep) > total
  {
    assert Abs(total) / DepthStep > (frames + 1) as real;
  }

  /** One frame of `awaitZoomTicker` towards the `target` level about `t`: a frame before
      the last moves the depth by `delta` (see `ZoomTick`), the last one lands on the
      target level at depth 0; the window is resized for the new zoom, and its corner
      moves to `t - (t - x) * 2^-delta` within the new bounds. */
  function ZoomFrame(c: Camera, sc: Screen, delta: real, last: bool, target: int, t: (real, real),
                     exp2: real -> real): Camera
    requires ProperScreen(sc) && Positive(exp2)
  {
    var (z, d) := if last then (target, 0.0) else ZoomTick(c.zoomLevel, c.depth, delta);
    PositiveAt(exp2, z as real + d);
    var l := Limits(c.(zoomLevel := z, depth := d), sc, exp2(z as real + d));
    l.(x := Max(Min(Toward(t.0, c.x, exp2(-delta)), l.maxX - l.effectiveWidth), l.minX),
       y := Max(Min(Toward(t.1, c.y, exp2(-delta)), l.maxY - l.effectiveHeight), l.minY))
  }

  /** A zoom-ticker frame keeps the camera proper and sized for its zoom, moves the zoom
      level plus depth by `delta` (or lands on the target at the last frame) and moves the
      corner about `t` as far as the new bounds allow. */
  lemma ZoomFrameKeeps(c: Camera, sc: Screen, delta: real, last: bool, target: int, t: (real, real),
                       exp2: real -> real)
    requires ProperScreen(sc) && ProperCamera(c, sc) && Positive(exp2) && 0 <= target <= sc.maxZoomLevel
    requires !last ==> delta == DepthStep || delta == -DepthStep
    requires !last && delta > 0.0 ==> c.zoomLevel as real + c.depth + delta < target as real
    requires !last && delta < 0.0 ==> c.zoomLevel as real + c.depth + delta > target as real
    ensures var r := ZoomFrame(c, sc, delta, last, target, t, exp2);
      ProperCamera(r, sc) && Sized(r, sc, exp2) &&
      (last ==> r.zoomLevel == target && r.depth == 0.0) &&
      (!last ==> r.zoomLevel as real + r.depth == c.zoomLevel as real + c.depth + delta)
    ensures var r := ZoomFrame(c, sc, delta, last, target, t, exp2);
      MovedToward(r, c, t, exp2(-delta))
  {
    if !last {
      ZoomTickKeeps(c.zoomLevel, c.depth, sc.maxZoomLevel, delta, target);
    }
    var (z, d) := if last then (target, 0.0) else ZoomTick(c.zoomLevel, c.depth, delta);
    PositiveAt(exp2, z as real + d);
    var l := Limits(c.(zoomLevel := z, depth := d), sc, exp2(z as real + d));
    var r := ZoomFrame(c, sc, delta, last, target, t, exp2);
    assert SizedFor(r, l) && r.zoomLevel == z && r.depth == d;
    assert r.x == Clamp(Toward(t.0, c.x, exp2(-delta)), l.minX, l.maxX - l.effectiveWidth);
    assert r.y == Clamp(Toward(t.1, c.y, exp2(-delta)), l.minY, l.maxY - l.effectiveHeight);
  }

  class ClustersMap {
    var stage: Stage
    var cache: map<Tile, seq<Item>>
    var pending: set<nat>
    var camera: Camera
    var screen: Screen
    var touch: Touch

    ghost predicate Valid()
      reads this
    {
      stage.Consistent() && ProperScreen(screen) && ProperCamera(camera, screen) && ProperTouch(touch)
    }

    /** The view right after mounting: a full pool and nothing on stage. */
    constructor (screen: Screen, camera: Camera)
      requires ProperScreen(screen) && ProperCamera(camera, screen)
      ensures Valid()
      ensures this.screen == screen && this.camera == camera
      ensures stage == EmptyStage() && cache == map[] && pending == {}
      ensures touch == Touch([], 0, 0.0, 0.0, 0.0, 0, 1.0, false)
    {
      this.screen := screen;
      this.camera := camera;
      stage := EmptyStage();
      cache := map[];
      pending := {};
      touch := Touch([], 0, 0.0, 0.0, 0.0, 0, 1.0, false);
    }

    /** The containers hold as many children as there are sprites on stage, and no
        sprite is in both. */
    lemma ChildrenCount()
      requires Valid()
      ensures |stage.foreground| + |stage.background| == |stage.sprites| && stage.foreground !! stage.background
    {
      var s := stage;
      assert forall i :: i in s.foreground + s.background <==> i in s.sprites.Keys;
      assert s.foreground + s.background == s.sprites.Keys;
      forall i | i in s.foreground
        ensures i !in s.background
      {
        assert s.inForeground[i];
      }
      assert s.foreground !! s.background;
      assert |s.foreground + s.background| == |s.foreground| + |s.background|;
      assert |s.sprites.Keys| == |s.sprites|;
    }

    /** `reset` followed by the refill of the pool: nothing on stage, nothing cached or
        pending, the gesture bookkeeping cleared (the mouse button aside), the camera left as it is. */
    method Reset()
      requires Valid()
      modifies this
      ensures Valid()
      ensures stage == EmptyStage() && cache == map[] && pending == {}
      ensures touch == Touch([], 0, 0.0, 0.0, 0.0, 0, 1.0, old(touch).mouseDown)
      ensures camera == old(camera) && screen == old(screen)
    {
      stage := EmptyStage();
      cache := map[];
      pending := {};
      touch := Touch([], 0, 0.0, 0.0, 0.0, 0, 1.0, touch.mouseDown);
    }

    /** `addSpriteToStage`: the last sprite of the pool is lent to the artwork, placed,
        flagged as loading its texture when near the stage, and added to the container
        its zoom level calls for. */
    method AddSpriteToStage(item: Item)
      requires Valid() && |stage.pool| > 0 && item.index !in stage.sprites
      modifies this
      ensures Valid()
      ensures stage == Newcomer(old(stage), item, camera, screen)
      ensures camera == old(camera) && screen == old(screen) && touch == old(touch)
      ensures cache == old(cache) && pending == old(pending)
    {
      var s := stage;
      var placed := InfoOf(item, camera, screen);
      var near := NearStage(placed.stageX, placed.stageY, screen);
      var fg := true;
      if item.zoom >= NextZoom(camera.zoomLevel, camera.depth, screen.maxZoomLevel) &&
         !(camera.zoomLevel == screen.maxZoomLevel && camera.depth == 0.0) {
        fg := false;
      }
      assert fg == !InBackground(item.zoom, camera.zoomLevel, camera.depth, screen.maxZoomLevel);
      ghost var r := Newcomer(s, item, camera, screen);
      assert r == WithNewcomer(s, item.index, placed, fg, near);
      stage := WithNewcomer(s, item.index, placed, fg, near);
    }

    /** `removeSprite`: the artwork leaves the stage and its container, its texture
        request is aborted, and its sprite goes back to the pool. */
    method RemoveSprite(index: int)
      requires Valid() && index in stage.sprites
      modifies this
      ensures Valid()
      ensures var s := old(stage);
        stage == Stage(s.pool + [s.sprites[index]], s.sprites - {index}, s.info - {index},
                       s.inForeground - {index}, s.foreground - {index}, s.background - {index},
                       s.textureLoaded - {index}, s.textureRequests - {index})
      ensures camera == old(camera) && screen == old(screen) && touch == old(touch)
      ensures cache == old(cache) && pending == old(pending)
    {
      var s := stage;
      Without(s.sprites, index);
      Without(s.info, index);
      Without(s.inForeground, index);
      Without(s.textureLoaded, index);
      stage := Stage(s.pool + [s.sprites[index]], s.sprites - {index}, s.info - {index},
                     s.inForeground - {index}, s.foreground - {index}, s.background - {index},
                     s.textureLoaded - {index}, s.textureRequests - {index});
    }

    /** A texture response arrives: its request is no longer in flight, and the flag
        stays set. */
    method TextureArrived(index: int)
      requires Valid() && index in stage.textureRequests
      modifies this
      ensures Valid()
      ensures stage == old(stage).(textureRequests := old(stage).textureRequests - {index})
      ensures stage.textureLoaded[index]
      ensures camera == old(camera) && screen == old(screen) && touch == old(touch)
      ensures cache == old(cache) && pending == old(pending)
    {
      stage := stage.(textureRequests := stage.textureRequests - {index});
    }

    /** The request part of `updateStage`: the indexes neither cached nor pending are
        sent, in their order, and marked pending; the batch is empty when nothing is
        sent. */
    method ScheduleFetch(indexes: seq<nat>) returns (batch: seq<nat>)
      requires Valid()
      modifies this
      ensures Valid()
      ensures batch == Unrequested(indexes, old(cache).Keys, old(pending))
      ensures pending == old(pending) + set i | i in batch
      ensures stage == old(stage) && cache == old(cache)
      ensures camera == old(camera) && screen == old(screen) && touch == old(touch)
    {
      batch := SelectUnrequested(indexes, cache, pending);
      MarkPending(batch);
    }

    /** The marking step of the request part: every index of the batch becomes pending.
        Its guard looks an index up among keys of another type, so it never holds back
        an index. */
    method MarkPending(batch: seq<nat>)
      requires Valid()
      modifies this
      ensures Valid()
      ensures pending == old(pending) + set i | i in batch
      ensures stage == old(stage) && cache == old(cache)
      ensures camera == old(camera) && screen == old(screen) && touch == old(touch)
    {
      for k := 0 to |batch|
        invariant pending == old(pending) + set i | i in batch[..k]
        invariant stage == old(stage) && cache == old(cache)
        invariant camera == old(camera) && screen == old(screen) && touch == old(touch)
      {
        assert forall i :: i in batch[..k + 1] <==> i in batch[..k] || i == batch[k];
        pending := pending + {batch[k]};
      }
      assert batch[..|batch|] == batch;
    }

    /** A tile response: each tile is cached under the key of its index and its index
        is no longer pending. */
    method FetchArrived(data: seq<(nat, seq<Item>)>)
      requires Valid()
      modifies this
      ensures Valid()
      ensures cache == Stored(old(cache), data)
      ensures pending == old(pending) - Arrived(data)
      ensures stage == old(stage)
      ensures camera == old(camera) && screen == old(screen) && touch == old(touch)
    {
      for k := 0 to |data|
        invariant cache == Stored(old(cache), data[..k])
        invariant pending == old(pending) - Arrived(data[..k])
        invariant stage == old(stage) && camera == old(camera) && screen == old(screen) && touch == old(touch)
      {
        assert data[..k + 1][..k] == data[..k];
        assert forall e :: e in data[..k + 1] <==> e in data[..k] || e == data[k];
        cache := cache[TileOf(data[k].0) := data[k].1];
        pending := pending - {data[k].0};
      }
      assert data[..|data|] == data;
    }

    /** The removal part of `updateStage`: an artwork stays on stage exactly when it is
        not deeper than the zoom level on stage and lies in a visible tile; the others
        give their sprites back to the pool. */
    method RemoveInvisible(next: nat, visible: seq<Tile>)
      requires Valid()
      modifies this
      ensures Valid()
      ensures Restricted(old(stage), stage, Kept(old(stage).info, next, visible, screen))
      ensures forall i :: i in stage.info ==> Keeps(stage.info[i], next, visible, screen)
      ensures cache == old(cache) && pending == old(pending)
      ensures camera == old(camera) && screen == old(screen) && touch == old(touch)
    {
      ghost var keep := Kept(stage.info, next, visible, screen);
      var todo := stage.sprites.Keys;
      RestrictedSelf(stage, todo + keep);
      while todo != {}
        invariant Valid()
        invariant todo <= stage.sprites.Keys
        invariant Restricted(old(stage), stage, todo + keep)
        invariant cache == old(cache) && pending == old(pending)
        invariant camera == old(camera) && screen == old(screen) && touch == old(touch)
        decreases |todo|
      {
        HasElement(todo);
        var index :| index in todo;
        SweepOne(old(stage), keep, todo, index, next, visible);
        todo := todo - {index};
      }
      assert {} + keep == keep;
    }

    /** One artwork of the removal loop: it gives its sprite back unless it is kept. */
    method SweepOne(ghost s0: Stage, ghost keep: set<int>, ghost todo: set<int>, index: int, next: nat, visible: seq<Tile>)
      requires Valid() && index in todo && todo <= stage.sprites.Keys
      requires keep == Kept(s0.info, next, visible, screen) && Restricted(s0, stage, todo + keep)
      modifies this
      ensures Valid() && todo - {index} <= stage.sprites.Keys && Restricted(s0, stage, (todo - {index}) + keep)
      ensures cache == old(cache) && pending == old(pending)
      ensures camera == old(camera) && screen == old(screen) && touch == old(touch)
    {
      if !Keeps(stage.info[index], next, visible, screen) {
        RestrictedRemove(s0, stage, todo + keep, index);
        assert (todo + keep) - {index} == (todo - {index}) + keep;
        RemoveSprite(index);
      } else {
        assert todo + keep == (todo - {index}) + keep;
      }
    }

    /** An artwork of a visible tile already on stage (`updateStage`): it is moved to
        the layer its zoom level calls for and on the stage, and its texture is fetched
        or aborted by where it now sits. */
    method UpdateSprite(index: int, shift: Option<(real, real)>)
      requires Valid() && index in stage.sprites
      modifies this
      ensures Valid()
      ensures stage == Refresh(old(stage), index, camera, screen, shift)
      ensures cache == old(cache) && pending == old(pending)
      ensures camera == old(camera) && screen == old(screen) && touch == old(touch)
    {
      stage := Refresh(stage, index, camera, screen, shift);
    }

    /** One artwork of a visible tile in `updateStage`: a newcomer is given a sprite
        from the pool, which fails when the pool is empty; an artwork already on stage
        is updated. */
    method PlaceItem(item: Item, shift: Option<(real, real)>) returns (placed: bool)
      requires Valid()
      modifies this
      ensures Valid()
      ensures (stage, placed) == PlacedItem(old(stage), item, camera, screen, shift)
      ensures cache == old(cache) && pending == old(pending)
      ensures camera == old(camera) && screen == old(screen) && touch == old(touch)
    {
      if item.index !in stage.sprites {
        if |stage.pool| == 0 {
          return false;
        }
        AddSpriteToStage(item);
        return true;
      }
      UpdateSprite(item.index, shift);
      placed := true;
    }

    /** The artworks of one cached tile in `updateStage`, in order; it stops at the
        first newcomer for which the pool has no sprite left. */
    method PlaceTile(data: seq<Item>, shift: Option<(real, real)>) returns (ok: bool)
      requires Valid()
      modifies this
      ensures Valid()
      ensures (stage, ok) == PlacedTile(old(stage), data, camera, screen, shift)
      ensures ok ==> Progress(old(stage), stage, data, camera, screen)
      ensures !ok ==> |stage.pool| == 0
      ensures cache == old(cache) && pending == old(pending)
      ensures camera == old(camera) && screen == old(screen) && touch == old(touch)
    {
      PlacedTileProgress(stage, data, camera, screen, shift);
      for k := 0 to |data|
        invariant Valid()
        invariant PlacedTile(old(stage), data, camera, screen, shift) == PlacedTile(stage, data[k..], camera, screen, shift)
        invariant cache == old(cache) && pending == old(pending)
        invariant camera == old(camera) && screen == old(screen) && touch == old(touch)
      {
        assert data[k..][1..] == data[k + 1..];
        var placed := PlaceItem(data[k], shift);
        if !placed {
          return false;
        }
      }
      ok := true;
    }

    /** The list each caller computes: the indexes of its wanted tiles that are not
        cached, by the utility the caller uses. */
    static method WantedIndexes(caller: Caller, x: int, y: int, next: nat, maxZoom: nat, keys: set<Tile>)
      returns (indexes: seq<int>)
      ensures indexes == Indexes(Uncached(Wanted(caller, x, y, next, maxZoom), keys))
    {
      match caller {
        case Interaction =>
          indexes := GetTilesToFetch(x, y, next, maxZoom, keys);
        case TranslationTicker =>
          indexes := GetTilesForTranslationTicker(x, y, next, keys);
        case ZoomTicker =>
          indexes := GetTilesForZoomTicker(x, y, next, maxZoom, keys);
      }
    }

    /** The request part of `updateStage` for the window at tile (`x`, `y`) of level
        `next`: the tiles the caller wants that are neither cached nor pending are asked
        for and marked pending, and no others. */
    method RequestTiles(caller: Caller, x: int, y: int, next: nat) returns (batch: seq<nat>)
      requires Valid() && OnGrid(Tile(x, y, next)) && next <= screen.maxZoomLevel
      modifies this
      ensures Valid()
      ensures var wanted := Wanted(caller, x, y, next, screen.maxZoomLevel);
        (forall i: nat :: i in batch ==>
          TileOf(i) !in cache && i !in old(pending) && exists t :: t in wanted && t !in cache && IndexOf(t) == i) &&
        (forall t :: t in wanted && OnGrid(t) && t !in cache && IndexOf(t) !in old(pending) ==> IndexOf(t) in batch) &&
        (AllOnGrid(wanted) ==> forall i: nat :: i in batch ==> TileOf(i) in wanted)
      ensures pending == old(pending) + set i | i in batch
      ensures stage == old(stage) && cache == old(cache)
      ensures camera == old(camera) && screen == old(screen) && touch == old(touch)
    {
      var maxZoom := screen.maxZoomLevel;
      var indexes := WantedIndexes(caller, x, y, next, maxZoom, cache.Keys);
      ghost var wanted, keys, before := Wanted(caller, x, y, next, maxZoom), cache.Keys, pending;
      WantedFacts(caller, x, y, next, maxZoom);
      BatchMeaning(wanted, keys, before);
      batch := ScheduleFetch(AsNats(indexes));
      assert batch == Unrequested(AsNats(Indexes(Uncached(wanted, keys))), keys, before);
    }

    /** One visible tile in `updateStage`: its artworks are placed when its data is
        cached, and nothing happens otherwise. */
    method PlaceCached(t: Tile, shift: Option<(real, real)>) returns (ok: bool)
      requires Valid()
      modifies this
      ensures Valid()
      ensures t !in cache ==> ok && stage == old(stage)
      ensures t in cache ==> (stage, ok) == PlacedTile(old(stage), cache[t], camera, screen, shift)
      ensures cache == old(cache) && pending == old(pending)
      ensures camera == old(camera) && screen == old(screen) && touch == old(touch)
    {
      ok := true;
      if t in cache {
        ok := PlaceTile(cache[t], shift);
      }
    }

    /** The loop of the placement part of `updateStage`: every visible tile in turn,
        stopping at the first that runs out of sprites; the tiles without data are
        counted. */
    method PlaceVisible(visible: seq<Tile>, shift: Option<(real, real)>) returns (ok: bool, count: nat)
      requires Valid()
      modifies this
      ensures Valid()
      ensures (stage, ok) == PlacedTiles(old(stage), visible, cache, camera, screen, shift)
      ensures ok ==> count == Unavailable(visible, cache)
      ensures cache == old(cache) && pending == old(pending)
      ensures camera == old(camera) && screen == old(screen) && touch == old(touch)
    {
      count := 0;
      for k := 0 to |visible|
        invariant Valid()
        invariant PlacedTiles(old(stage), visible, cache, camera, screen, shift) ==
                  PlacedTiles(stage, visible[k..], cache, camera, screen, shift)
        invariant count == Unavailable(visible[..k], cache)
        invariant cache == old(cache) && pending == old(pending)
        invariant camera == old(camera) && screen == old(screen) && touch == old(touch)
      {
        ok, count := PlaceStep(old(stage), visible, k, shift, count);
        if !ok {
          return;
        }
      }
      assert visible[..|visible|] == visible;
      ok := true;
    }

    /** The visible tile at `k`: its artworks go on stage when its data is cached, and
        it is counted when not. */
    method PlaceStep(ghost s0: Stage, visible: seq<Tile>, k: nat, shift: Option<(real, real)>, count: nat)
      returns (ok: bool, count': nat)
      requires Valid() && s0.Consistent() && k < |visible|
      requires PlacedTiles(s0, visible, cache, camera, screen, shift) ==
               PlacedTiles(stage, visible[k..], cache, camera, screen, shift)
      requires count == Unavailable(visible[..k], cache)
      modifies this
      ensures Valid()
      ensures ok ==> PlacedTiles(s0, visible, cache, camera, screen, shift) ==
                     PlacedTiles(stage, visible[k + 1..], cache, camera, screen, shift)
      ensures ok ==> count' == Unavailable(visible[..k + 1], cache)
      ensures !ok ==> (stage, false) == PlacedTiles(s0, visible, cache, camera, screen, shift)
      ensures cache == old(cache) && pending == old(pending)
      ensures camera == old(camera) && screen == old(screen) && touch == old(touch)
    {
      PlacedTilesUnfold(stage, visible[k..], cache, camera, screen, shift);
      assert visible[k..][0] == visible[k] && visible[k..][1..] == visible[k + 1..];
      assert visible[..k + 1][..k] == visible[..k];
      ok := PlaceCached(visible[k], shift);
      count' := if visible[k] in cache then count else count + 1;
    }

    /** The placement part of `updateStage`: the artworks of every visible tile whose
        data is cached go on stage, tile after tile, and the tiles without data are
        counted; running out of sprites aborts it. */
    method AddVisible(visible: seq<Tile>, shift: Option<(real, real)>) returns (unavailable: Option<nat>)
      requires Valid()
      modifies this
      ensures Valid()
      ensures (stage, unavailable.Some?) == PlacedTiles(old(stage), visible, cache, camera, screen, shift)
      ensures unavailable.Some? ==>
        unavailable.value == Unavailable(visible, cache) && Progress(old(stage), stage, Items(visible, cache), camera, screen)
      ensures unavailable.None? ==> |stage.pool| == 0
      ensures cache == old(cache) && pending == old(pending)
      ensures camera == old(camera) && screen == old(screen) && touch == old(touch)
    {
      PlacedTilesProgress(stage, visible, cache, camera, screen, shift);
      var ok, count := PlaceVisible(visible, shift);
      unavailable := if ok then Some(count) else None;
    }

    /** `updateStage`: for the window at the zoom level kept on stage, the wanted tiles
        are requested, the artworks outside the visible tiles or deeper than that level
        leave the stage, and the artworks of the visible tiles' cached data are placed. */
    method UpdateStage(caller: Caller, shift: Option<(real, real)>) returns (batch: seq<nat>, unavailable: Option<nat>)
      requires Valid()
      modifies this
      ensures Valid()
      ensures var w := Window(camera, screen); var wanted := Wanted(caller, w.0, w.1, w.2, screen.maxZoomLevel);
        (forall i: nat :: i in batch ==>
          TileOf(i) !in cache && i !in old(pending) && exists t :: t in wanted && t !in cache && IndexOf(t) == i) &&
        (forall t :: t in wanted && OnGrid(t) && t !in cache && IndexOf(t) !in old(pending) ==> IndexOf(t) in batch) &&
        (AllOnGrid(wanted) ==> forall i: nat :: i in batch ==> TileOf(i) in wanted)
      ensures pending == old(pending) + set i | i in batch
      ensures var w := Window(camera, screen); var visible := Neighbourhood(w.0, w.1, w.2);
        unavailable.Some? ==>
          unavailable.value == Unavailable(visible, cache) &&
          Settled(old(stage), stage, Kept(old(stage).info, w.2, visible, screen), Items(visible, cache), camera, screen)
      ensures unavailable.None? ==> |stage.pool| == 0
      ensures cache == old(cache)
      ensures camera == old(camera) && screen == old(screen) && touch == old(touch)
    {
      var w := Window(camera, screen);
      batch := RequestTiles(caller, w.0, w.1, w.2);
      var visible := GetTilesFromZoomLevel(w.0, w.1, w.2);
      ghost var keep := Kept(stage.info, w.2, visible, screen);
      RemoveInvisible(w.2, visible);
      ghost var mid := stage;
      unavailable := AddVisible(visible, shift);
      if unavailable.Some? {
        Settles(old(stage), mid, stage, keep, Items(visible, cache), camera, screen);
      }
    }

    /** `updateStage` as the handlers below see it: only the stage and the pending
        requests change, and no request is dropped. */
    method Restage(caller: Caller, shift: Option<(real, real)>)
      requires Valid()
      modifies this
      ensures Valid()
      ensures cache == old(cache) && camera == old(camera) && screen == old(screen) && touch == old(touch)
      ensures old(pending) <= pending
    {
      var _, _ := UpdateStage(caller, shift);
    }

    // -------------------------------------------------------------------------------
    // Gestures

    /** `handleMouseDown`: ignored unless `enabled` (the flag the handler checks first);
        otherwise the button is down and a new gesture starts at `(x, y)`. */
    method MouseDown(x: real, y: real, enabled: bool)
      requires Valid()
      modifies this
      ensures Valid()
      ensures !enabled ==> touch == old(touch)
      ensures enabled ==>
        touch == old(touch).(mouseDown := true, velocities := [], totalMovement := 0.0, prevTime := -1, prevX := x, prevY := y)
      ensures stage == old(stage) && cache == old(cache) && pending == old(pending)
      ensures camera == old(camera) && screen == old(screen)
    {
      if !enabled {
        return;
      }
      touch := touch.(mouseDown := true, velocities := [], totalMovement := 0.0, prevTime := -1, prevX := x, prevY := y);
    }

    /** `handleTouchStart`: a new gesture starts at `(x, y)`. */
    method TouchStart(x: real, y: real)
      requires Valid()
      modifies this
      ensures Valid()
      ensures touch == old(touch).(prevX := x, prevY := y, prevTime := -1, totalMovement := 0.0, velocities := [])
      ensures stage == old(stage) && cache == old(cache) && pending == old(pending)
      ensures camera == old(camera) && screen == old(screen)
    {
      touch := touch.(prevX := x, prevY := y, prevTime := -1, totalMovement := 0.0, velocities := []);
    }

    /** `updateVelocities` for a sample at `(x, y)` at time `now`; `distance` is the
        Euclidean distance from the previous sample. */
    method UpdateVelocities(x: real, y: real, now: int, distance: real)
      requires Valid()
      requires distance >= 0.0 &&
        distance * distance == (x - touch.prevX) * (x - touch.prevX) + (y - touch.prevY) * (y - touch.prevY)
      modifies this
      ensures Valid()
      ensures touch == Sampled(old(touch), x, y, now, distance)
      ensures stage == old(stage) && cache == old(cache) && pending == old(pending)
      ensures camera == old(camera) && screen == old(screen)
    {
      if touch.prevTime == -1 {
        touch := touch.(prevTime := now, prevX := x, prevY := y);
        return;
      }
      var velocities := touch.velocities;
      if |velocities| > NumOfVelocities {
        velocities := velocities[1..];
      }
      velocities := velocities + [Velocity(touch, x, y, now)];
      touch := touch.(velocities := velocities, totalMovement := touch.totalMovement + distance,
                      prevX := x, prevY := y, prevTime := now);
    }

    /** The pan of `handleMove` and of a momentum frame: the corner moves by the pixel
        shift and is clamped to the bounds, and the shift the stage must follow is
        returned. */
    method PanBy(shiftX: real, shiftY: real) returns (moveX: real, moveY: real)
      requires Valid()
      modifies this
      ensures Valid()
      ensures camera == Panned(old(camera), screen, shiftX, shiftY)
      ensures var c := old(camera);
        moveX == PanShift(c.x, shiftX, c.effectiveWidth, screen.width, screen.maxWidth, c.minX, c.maxX - c.effectiveWidth) &&
        moveY == PanShift(c.y, shiftY, c.effectiveHeight, screen.height, screen.maxHeight, c.minY, c.maxY - c.effectiveHeight)
      ensures stage == old(stage) && cache == old(cache) && pending == old(pending)
      ensures screen == old(screen) && touch == old(touch)
    {
      var c := camera;
      moveX := PanShift(c.x, shiftX, c.effectiveWidth, screen.width, screen.maxWidth, c.minX, c.maxX - c.effectiveWidth);
      moveY := PanShift(c.y, shiftY, c.effectiveHeight, screen.height, screen.maxHeight, c.minY, c.maxY - c.effectiveHeight);
      camera := Panned(c, screen, shiftX, shiftY);
    }

    /** `handleMove`: the sample is recorded, the window pans against the mouse's
        movement, and the stage follows. */
    method HandleMove(x: real, y: real, now: int, distance: real, movementX: real, movementY: real)
      requires Valid()
      requires distance >= 0.0 &&
        distance * distance == (x - touch.prevX) * (x - touch.prevX) + (y - touch.prevY) * (y - touch.prevY)
      modifies this
      ensures Valid()
      ensures touch == Sampled(old(touch), x, y, now, distance)
      ensures camera == Panned(old(camera), screen, -movementX, -movementY)
      ensures cache == old(cache) && screen == old(screen) && old(pending) <= pending
    {
      UpdateVelocities(x, y, now, distance);
      var moveX, moveY := PanBy(-movementX, -movementY);
      Restage(Interaction, Some((-moveX, -moveY)));
    }

    /** `handleMouseMove`: a move only while the button is down. */
    method MouseMove(x: real, y: real, now: int, distance: real, movementX: real, movementY: real)
      requires Valid()
      requires distance >= 0.0 &&
        distance * distance == (x - touch.prevX) * (x - touch.prevX) + (y - touch.prevY) * (y - touch.prevY)
      modifies this
      ensures Valid()
      ensures !old(touch).mouseDown ==> touch == old(touch) && camera == old(camera) && stage == old(stage)
      ensures old(touch).mouseDown ==>
        touch == Sampled(old(touch), x, y, now, distance) && camera == Panned(old(camera), screen, -movementX, -movementY)
      ensures cache == old(cache) && screen == old(screen) && old(pending) <= pending
    {
      if touch.mouseDown {
        HandleMove(x, y, now, distance, movementX, movementY);
      }
    }

    /** `handleTouchMove`: a move only while no pinch is under way. */
    method TouchMove(x: real, y: real, now: int, distance: real, movementX: real, movementY: real)
      requires Valid()
      requires distance >= 0.0 &&
        distance * distance == (x - touch.prevX) * (x - touch.prevX) + (y - touch.prevY) * (y - touch.prevY)
      modifies this
      ensures Valid()
      ensures old(touch).pinching > 0 ==> touch == old(touch) && camera == old(camera) && stage == old(stage)
      ensures old(touch).pinching <= 0 ==>
        touch == Sampled(old(touch), x, y, now, distance) && camera == Panned(old(camera), screen, -movementX, -movementY)
      ensures cache == old(cache) && screen == old(screen) && old(pending) <= pending
    {
      if touch.pinching > 0 {
        return;
      }
      HandleMove(x, y, now, distance, movementX, movementY);
    }

    /** `momentumTranslation`: see `Glided`; every frame moves the stage by the shift of
        its pan, and a last update with no shift follows the frames. */
    method Momentum(vx: real, vy: real, factor: real) returns (frames: nat)
      requires Valid()
      modifies this
      ensures Valid()
      ensures Glided(old(camera), camera, screen, (vx, vy), factor, frames)
      ensures frames == 0 ==> stage == old(stage) && pending == old(pending)
      ensures cache == old(cache) && screen == old(screen) && touch == old(touch) && old(pending) <= pending
    {
      if Abs(vx) < 0.4 && Abs(vy) < 0.4 {
        return 0;
      }
      var ux := MomentumVelocity(vx, factor, MaxVelocity);
      var uy := MomentumVelocity(vy, factor, MaxVelocity);
      ghost var c0 := camera;
      var stop;
      frames, stop := GlideFrames(ux, uy);
      GlidingEnds(c0, camera, screen, (vx, vy), factor, frames, stop);
      Restage(Interaction, Some((0.0, 0.0)));
    }

    /** The frames of `momentumTranslation`: each pans by the rounded, decaying velocity
        until the frames run out or the window is stuck in a corner. */
    method GlideFrames(ux: real, uy: real) returns (frames: nat, stop: bool)
      requires Valid()
      modifies this
      ensures Valid() && Gliding(old(camera), camera, screen, ux, uy, frames, stop)
      ensures 0 < frames && !(frames < MomentumFrames && !stop)
      ensures cache == old(cache) && screen == old(screen) && touch == old(touch) && old(pending) <= pending
    {
      var wx, wy := ux, uy;
      ghost var c0 := camera;
      frames := 0;
      stop := false;
      while frames < MomentumFrames && !stop
        invariant Valid() && Gliding(c0, camera, screen, ux, uy, frames, stop)
        invariant wx == Decay(ux, frames) && wy == Decay(uy, frames)
        invariant cache == old(cache) && screen == old(screen) && touch == old(touch) && old(pending) <= pending
        invariant frames == 0 ==> !stop
        decreases MomentumFrames - frames
      {
        stop := GlideFrame(c0, ux, uy, frames, wx, wy);
        frames := frames + 1;
        wx, wy := wx * 0.97, wy * 0.97;
      }
    }

    /** One momentum frame: the window pans by the rounded opposite of the decayed
        velocity, the stage follows, and the glide stops once the corner is on a bound
        along both axes. */
    method GlideFrame(ghost c0: Camera, ux: real, uy: real, frames: nat, wx: real, wy: real) returns (stop: bool)
      requires Valid() && Gliding(c0, camera, screen, ux, uy, frames, false) && frames < MomentumFrames
      requires wx == Decay(ux, frames) && wy == Decay(uy, frames)
      modifies this
      ensures Valid() && Gliding(c0, camera, screen, ux, uy, frames + 1, stop)
      ensures cache == old(cache) && screen == old(screen) && touch == old(touch) && old(pending) <= pending
    {
      GlidingStep(c0, camera, screen, ux, uy, frames);
      var moveX, moveY := PanBy(Round(-wx) as real, Round(-wy) as real);
      stop := AtCorner(camera);
      Restage(Interaction, Some((-moveX, -moveY)));
    }

    /** `handleMouseUpOrLeave`: the button is up, and a drag released fast enough after
        moving at least 2 pixels glides at its average velocity, multiplied by 11. */
    method MouseUp(now: int) returns (frames: nat)
      requires Valid()
      modifies this
      ensures Valid()
      ensures touch == old(touch).(mouseDown := false)
      ensures var f := Fling(old(touch), 2.0, now);
        if old(touch).mouseDown && f.Some? then Glided(old(camera), camera, screen, f.value, MultiplicativeFactor, frames)
        else frames == 0 && camera == old(camera) && stage == old(stage) && pending == old(pending)
      ensures cache == old(cache) && screen == old(screen) && old(pending) <= pending
    {
      var t := touch;
      if !t.mouseDown || t.totalMovement < 2.0 || now - t.prevTime > 100 {
        touch := touch.(mouseDown := false);
        return 0;
      }
      touch := touch.(mouseDown := false);
      var sumX, sumY := SumVelocities(t.velocities);
      frames := 0;
      if |t.velocities| > 0 {
        var n := |t.velocities| as real;
        frames := Momentum(sumX / n, sumY / n, MultiplicativeFactor);
      }
    }

    /** `handleTouchEnd`: a finger lifted from a pinch only clears the velocities;
        otherwise a swipe released fast enough after moving at least 20 pixels glides at
        its average velocity, multiplied by the factor the stage width allows. */
    method TouchEnd(now: int) returns (frames: nat)
      requires Valid()
      modifies this
      ensures Valid()
      ensures old(touch).pinching > 0 ==>
        touch == old(touch).(velocities := [], pinching := old(touch).pinching - 1) &&
        frames == 0 && camera == old(camera) && stage == old(stage) && pending == old(pending)
      ensures old(touch).pinching <= 0 ==> touch == old(touch)
      ensures old(touch).pinching <= 0 ==>
        var f := Fling(old(touch), 20.0, now);
        if f.Some? then Glided(old(camera), camera, screen, f.value, TouchFactor(screen), frames)
        else frames == 0 && camera == old(camera) && stage == old(stage) && pending == old(pending)
      ensures cache == old(cache) && screen == old(screen) && old(pending) <= pending
    {
      if touch.pinching > 0 {
        touch := touch.(velocities := [], pinching := touch.pinching - 1);
        return 0;
      }
      if touch.totalMovement < 20.0 || now - touch.prevTime > 100 {
        return 0;
      }
      var sumX, sumY := SumVelocities(touch.velocities);
      frames := 0;
      if |touch.velocities| > 0 {
        var n := |touch.velocities| as real;
        frames := Momentum(sumX / n, sumY / n, TouchFactor(screen));
      }
    }

    /** `handlePinchStart`: one more finger pinches, at most two, and the scale starts
        afresh. */
    method PinchStart()
      requires Valid()
      modifies this
      ensures Valid()
      ensures touch == old(touch).(pinching := MinInt(old(touch).pinching + 1, 2), previousScale := 1.0)
      ensures stage == old(stage) && cache == old(cache) && pending == old(pending)
      ensures camera == old(camera) && screen == old(screen)
    {
      touch := touch.(pinching := MinInt(touch.pinching + 1, 2), previousScale := 1.0);
    }

    // -------------------------------------------------------------------------------
    // Zoom

    /** `handleZoom(delta)` with the mouse at `(mx, my)` over the sprites `boxes`;
        `exp2` is the power of two. At the deepest level zooming in, or at the coarsest
        zooming out, the depth returns to 0 and the window keeps its corner. Otherwise the
        depth moves by the clamped delta, the window is resized for it, and its corner
        moves so that the anchor (the artwork under the mouse, or the point under the
        mouse when there is none) keeps its place on the stage as far as the bounds
        allow; a depth of 1 or -1 then becomes a step of the zoom level. */
    method HandleZoom(delta: real, mx: real, my: real, boxes: seq<SpriteBox>, exp2: real -> real)
      returns (anchor: Option<(real, real)>)
      requires Valid() && Positive(exp2)
      modifies this
      ensures Valid() && Sized(camera, screen, exp2)
      ensures var z := ZoomStep(old(camera).zoomLevel, old(camera).depth, screen.maxZoomLevel, delta);
        camera.zoomLevel == z.zoomLevel && camera.depth == z.depth
      ensures var c := old(camera);
        anchor.None? <==>
          (c.zoomLevel == screen.maxZoomLevel && c.depth + delta > 0.0) || (c.zoomLevel == 0 && c.depth + delta < 0.0)
      ensures anchor.None? ==> camera == ZoomedAtBorder(old(camera), screen, exp2)
      ensures anchor.Some? ==> camera == ZoomedAbout(old(camera), screen, delta, anchor.value, exp2)
      ensures anchor.Some? ==>
        (exists i :: 0 <= i < |boxes| && Contains(boxes[i], mx, my) && boxes[i].zIndex > NoSprite &&
                     anchor.value == (boxes[i].globalX, boxes[i].globalY)) ||
        ((forall i :: 0 <= i < |boxes| && Contains(boxes[i], mx, my) ==> boxes[i].zIndex <= NoSprite) &&
         anchor.value == (ToGlobal(mx, old(camera).x, old(camera).effectiveWidth, screen.width, screen.maxWidth, screen.overflowX),
                          ToGlobal(my, old(camera).y, old(camera).effectiveHeight, screen.height, screen.maxHeight, screen.overflowY)))
      ensures cache == old(cache) && screen == old(screen) && touch == old(touch) && old(pending) <= pending
    {
      var c := camera;
      if (c.zoomLevel == screen.maxZoomLevel && c.depth + delta > 0.0) || (c.zoomLevel == 0 && c.depth + delta < 0.0) {
        ZoomAtBorder(delta, exp2);
        anchor := None;
        return;
      }
      var g := ZoomAnchor(boxes, mx, my, c, screen);
      ZoomAbout(delta, g, exp2);
      anchor := Some(g);
    }

    /** The border branch of `handleZoom`: the window is resized for depth 0 at the same
        corner. */
    method ZoomAtBorder(delta: real, exp2: real -> real)
      requires Valid() && Positive(exp2)
      requires (camera.zoomLevel == screen.maxZoomLevel && camera.depth + delta > 0.0) ||
               (camera.zoomLevel == 0 && camera.depth + delta < 0.0)
      modifies this
      ensures Valid() && Sized(camera, screen, exp2)
      ensures camera == ZoomedAtBorder(old(camera), screen, exp2)
      ensures var z := ZoomStep(old(camera).zoomLevel, old(camera).depth, screen.maxZoomLevel, delta);
        camera.zoomLevel == z.zoomLevel && camera.depth == z.depth
      ensures cache == old(cache) && screen == old(screen) && touch == old(touch) && old(pending) <= pending
    {
      ZoomedAtBorderKeeps(camera, screen, delta, exp2);
      camera := ZoomedAtBorder(camera, screen, exp2);
      // Both borders keep the depth at 0; the delta they pass on only rescales sprites.
      Restage(Interaction, Some((0.0, 0.0)));
    }

    /** The other branch of `handleZoom`: the window is zoomed about the anchor `g`. */
    method ZoomAbout(delta: real, g: (real, real), exp2: real -> real)
      requires Valid() && Positive(exp2)
      requires !(camera.zoomLevel == screen.maxZoomLevel && camera.depth + delta > 0.0) &&
               !(camera.zoomLevel == 0 && camera.depth + delta < 0.0)
      modifies this
      ensures Valid() && Sized(camera, screen, exp2)
      ensures camera == ZoomedAbout(old(camera), screen, delta, g, exp2)
      ensures var z := ZoomStep(old(camera).zoomLevel, old(camera).depth, screen.maxZoomLevel, delta);
        camera.zoomLevel == z.zoomLevel && camera.depth == z.depth
      ensures cache == old(cache) && screen == old(screen) && touch == old(touch) && old(pending) <= pending
    {
      ZoomedAboutKeeps(camera, screen, delta, g, exp2);
      camera := ZoomedAbout(camera, screen, delta, g, exp2);
      Restage(Interaction, None);
    }

    /** `handlePinch`: a scale of 0 is ignored; otherwise the change of scale since the
        last event is the zoom delta, applied unless it is tiny or zooms in past the
        deepest level. */
    method Pinch(scale: real, cx: real, cy: real, boxes: seq<SpriteBox>, exp2: real -> real) returns (zoomed: bool)
      requires Valid() && Positive(exp2)
      modifies this
      ensures Valid()
      ensures scale == 0.0 ==> touch == old(touch)
      ensures scale != 0.0 ==> touch == old(touch).(previousScale := scale)
      ensures var d := scale - old(touch).previousScale; var c := old(camera);
        zoomed <==> scale != 0.0 && Abs(d) > 0.0001 &&
                    !(c.zoomLevel == screen.maxZoomLevel && c.depth == 0.0 && d > 0.0)
      ensures zoomed ==>
        var z := ZoomStep(old(camera).zoomLevel, old(camera).depth, screen.maxZoomLevel, scale - old(touch).previousScale);
        camera.zoomLevel == z.zoomLevel && camera.depth == z.depth && Sized(camera, screen, exp2)
      ensures !zoomed ==> camera == old(camera) && stage == old(stage) && pending == old(pending)
      ensures cache == old(cache) && screen == old(screen) && old(pending) <= pending
    {
      zoomed := false;
      if scale == 0.0 {
        return;
      }
      var delta := scale - touch.previousScale;
      touch := touch.(previousScale := scale);
      if !(camera.zoomLevel == screen.maxZoomLevel && camera.depth == 0.0 && delta > 0.0) && Abs(delta) > 0.0001 {
        var _ := HandleZoom(delta, cx, cy, boxes, exp2);
        zoomed := true;
      }
    }

    /** `handleMouseWheel`: the wheel's delta is scaled down and capped at 0.12 either way;
        a large step of a wheel with whole-numbered deltas (not a trackpad) zooms in steps
        of 0.01 until the delta is covered, anything else zooms at once. Returns the
        number of zoom steps. */
    method MouseWheel(deltaY: real, mx: real, my: real, boxes: seq<SpriteBox>, exp2: real -> real) returns (steps: nat)
      requires Valid() && Positive(exp2)
      modifies this
      ensures Valid() && Sized(camera, screen, exp2)
      ensures var delta := WheelDelta(deltaY);
        steps == if Abs(delta) > 0.1 && deltaY == deltaY.Floor as real then Ceil(Abs(delta) / 0.01) else 1
      ensures cache == old(cache) && screen == old(screen) && touch == old(touch) && old(pending) <= pending
    {
      var trackPad := deltaY != deltaY.Floor as real;
      var delta := WheelDelta(deltaY);
      if Abs(delta) > 0.1 && !trackPad {
        var current := 0.0;
        steps := 0;
        while Abs(current) < Abs(delta)
          invariant Valid() && (steps > 0 ==> Sized(camera, screen, exp2))
          invariant steps <= 12
          invariant delta > 0.0 ==> current == steps as real * 0.01
          invariant delta < 0.0 ==> current == -(steps as real * 0.01)
          invariant steps > 0 ==> (steps - 1) as real * 0.01 < Abs(delta)
          invariant cache == old(cache) && screen == old(screen) && touch == old(touch) && old(pending) <= pending
          decreases 12 - steps
        {
          var _ := HandleZoom(Sign(delta) as real * 0.01, mx, my, boxes, exp2);
          current := current + Sign(delta) as real * 0.01;
          steps := steps + 1;
        }
        CeilUnique(Abs(delta) / 0.01, steps);
      } else {
        var _ := HandleZoom(delta, mx, my, boxes, exp2);
        steps := 1;
      }
    }

    // -------------------------------------------------------------------------------
    // Tickers

    /** `awaitTranslationTicker`: unless the final window is less than a pixel away, the
        corner moves there in `ceil(shift / 20)` equal steps, the last one landing
        exactly on it, and the stage follows every step. */
    method TranslationTicker(image: Item) returns (frames: nat)
      requires Valid() && image.width > 0.0 && image.height > 0.0
      modifies this
      ensures Valid()
      ensures var f := FinalWindow(image, old(camera), screen); var k := PixelShift(old(camera), screen, f);
        (k < 1.0 ==> frames == 0 && camera == old(camera) && stage == old(stage) && pending == old(pending)) &&
        (k >= 1.0 ==> frames == Ceil(k / PixelStep) && camera == old(camera).(x := f.0, y := f.1))
      ensures cache == old(cache) && screen == old(screen) && touch == old(touch) && old(pending) <= pending
    {
      var f := FinalWindow(image, camera, screen);
      var maxShift := PixelShift(camera, screen, f);
      if maxShift < 1.0 {
        return 0;
      }
      var steps := Ceil(maxShift / PixelStep);
      var stepX := (f.0 - camera.x) / steps as real;
      var stepY := (f.1 - camera.y) / steps as real;
      StepsCover(camera.x, f.0, steps);
      StepsCover(camera.y, f.1, steps);
      NoShift(camera, screen, f);
      frames := Travel(f, stepX, stepY, steps);
    }

    /** The frames of a translation ticker `steps` steps of `(stepX, stepY)` short of `f`:
        each frame takes a step (see `TickerStep`) and updates the stage, until the corner
        is at `f`, which is after the last step unless there was nothing to cover. */
    method Travel(f: (real, real), stepX: real, stepY: real, steps: nat) returns (frames: nat)
      requires Valid() && camera.x == StepsShort(f.0, stepX, steps) && camera.y == StepsShort(f.1, stepY, steps)
      modifies this
      ensures Valid() && camera == old(camera).(x := f.0, y := f.1)
      ensures frames == steps || (f.0 == old(camera).x && f.1 == old(camera).y)
      ensures cache == old(cache) && screen == old(screen) && touch == old(touch) && old(pending) <= pending
    {
      ghost var c0 := camera;
      var x, y := camera.x, camera.y;
      ghost var left: nat := steps;
      frames := 0;
      while !(x == f.0 && y == f.1) && frames != steps + 1
        invariant Valid() && camera == c0.(x := x, y := y)
        invariant frames + left == steps && x == StepsShort(f.0, stepX, left) && y == StepsShort(f.1, stepY, left)
        invariant cache == old(cache) && screen == old(screen) && touch == old(touch) && old(pending) <= pending
        decreases left
      {
        TickerStepApproaches(x, f.0, stepX, left);
        TickerStepApproaches(y, f.1, stepY, left);
        var moveX := TickerShift(x, f.0, stepX, screen.width - screen.maxWidth, camera.effectiveWidth);
        var moveY := TickerShift(y, f.1, stepY, screen.height - screen.maxHeight, camera.effectiveHeight);
        x, y := TickerStep(x, f.0, stepX), TickerStep(y, f.1, stepY);
        left := left - 1;
        camera := camera.(x := x, y := y);
        frames := frames + 1;
        Restage(Caller.TranslationTicker, Some((-moveX, -moveY)));
      }
      LastFrame(c0.x, f.0, stepX, steps, left);
      LastFrame(c0.y, f.1, stepY, steps, left);
    }

    /** `awaitZoomTicker`: the zoom level plus depth moves to the `target` level in steps
        of 0.03, the last step covering the remainder, each about the point `(tx, ty)`;
        the stage follows every step and once more at the end. */
    method ZoomTicker(target: nat, tx: real, ty: real, exp2: real -> real) returns (frames: nat)
      requires Valid() && target <= screen.maxZoomLevel && Positive(exp2)
      modifies this
      ensures Valid() && camera.zoomLevel == target && camera.depth == 0.0
      ensures frames == Ceil(Abs(target as real - old(camera).zoomLevel as real - old(camera).depth) / DepthStep)
      ensures frames == 0 ==> camera == old(camera) && stage == old(stage) && pending == old(pending)
      ensures frames > 0 ==> Sized(camera, screen, exp2)
      ensures cache == old(cache) && screen == old(screen) && touch == old(touch) && old(pending) <= pending
    {
      var total := target as real - camera.zoomLevel as real - camera.depth;
      var steps: nat := Ceil(Abs(total) / DepthStep);
      if steps == 0 {
        SameLevel(camera.zoomLevel, camera.depth, target);
        return 0;
      }
      ghost var start := camera.zoomLevel as real + camera.depth;
      frames := 0;
      while frames != steps
        invariant Valid() && frames <= steps
        invariant frames < steps && total > 0.0 ==> camera.zoomLevel as real + camera.depth == start + frames as real * DepthStep
        invariant frames < steps && total < 0.0 ==> camera.zoomLevel as real + camera.depth == start - frames as real * DepthStep
        invariant frames == steps ==> camera.zoomLevel == target && camera.depth == 0.0
        invariant frames > 0 ==> Sized(camera, screen, exp2)
        invariant cache == old(cache) && screen == old(screen) && touch == old(touch) && old(pending) <= pending
        decreases steps - frames
      {
        var last := frames == steps - 1;
        var delta;
        if !last {
          delta := Sign(total) as real * DepthStep;
          ZoomProgress(total, steps, frames);
        } else {
          delta := if total > 0.0 then total - (steps - 1) as real * DepthStep else total + (steps - 1) as real * DepthStep;
        }
        ZoomFrameKeeps(camera, screen, delta, last, target, (tx, ty), exp2);
        camera := ZoomFrame(camera, screen, delta, last, target, (tx, ty), exp2);
        frames := frames + 1;
        Restage(Caller.ZoomTicker, None);
      }
      Restage(Interaction, None);
    }
  }
}
