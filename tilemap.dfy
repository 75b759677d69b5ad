/** The tilemap layer of the game: a Sprite Fusion map already parsed from
    JSON, the spritesheet cell each tile id draws from, the list of blits
    that draws the map, the collision boxes built from collider layers, and
    the search for the player's spawn point. */
module Tilemap {
  import opened Wrappers
  import opened Geometry
  import PyInt

  /** One placed tile: its spritesheet id, its grid cell, and its custom
      attributes (`None` when the tile has no `attributes` entry). */
  datatype Tile = Tile(id: int, x: int, y: int, attributes: Option<map<string, string>>)

  datatype Layer = Layer(name: string, collider: bool, tiles: seq<Tile>)

  /** The parts of the map file the game logic reads: the side of a square
      tile in pixels and the layers, in file order. */
  datatype MapData = MapData(tileSize: int, layers: seq<Layer>)

  const EntitiesLayer := "entities"
  const PlayerSpawnType := "player_spawn"

  // ---------------------------------------------------------------------
  // Spritesheet source cells

  /** The top-left pixel of a spritesheet cell. */
  datatype Cell = Cell(x: int, y: int)

  /** The source cell of tile `id` on a spritesheet `cellsPerRow` tiles wide:
      `id % cellsPerRow * tileSize` across and `id // cellsPerRow * tileSize`
      down, with Python's operators.  A sheet narrower than one tile makes
      the width zero and the division fail. */
  function SourceCell(id: int, cellsPerRow: int, tileSize: int): (r: Result<Cell>)
    ensures r.Err? <==> cellsPerRow == 0
    ensures r.Err? ==> r.error == ZeroDivisionError
    ensures r.Ok? && cellsPerRow > 0 && tileSize >= 0 ==>
              0 <= r.value.x <= (cellsPerRow - 1) * tileSize
    ensures r.Ok? && cellsPerRow > 0 && tileSize >= 0 && id >= 0 ==> r.value.y >= 0
  {
    if cellsPerRow == 0 then Err(ZeroDivisionError)
    else
      ScaledCellBounds(id, cellsPerRow, tileSize);
      Ok(Cell(PyInt.Mod(id, cellsPerRow) * tileSize, PyInt.FloorDiv(id, cellsPerRow) * tileSize))
  }

  /** On a sheet of positive width the scaled column lies within the sheet,
      and a non-negative id has a non-negative scaled row. */
  lemma ScaledCellBounds(id: int, width: int, size: int)
    requires width != 0
    ensures width > 0 && size >= 0 ==> 0 <= PyInt.Mod(id, width) * size <= (width - 1) * size
    ensures width > 0 && size >= 0 && id >= 0 ==> PyInt.FloorDiv(id, width) * size >= 0
  {
    if width > 0 && size >= 0 {
      var col, row := PyInt.Mod(id, width), PyInt.FloorDiv(id, width);
      ScaledColumnBounds(col, width, size);
      if id >= 0 {
        assert row >= 0;
        PyInt.MulNonneg(row, size);
      }
    }
  }

  lemma ScaledColumnBounds(col: int, width: int, size: int)
    requires 0 <= col < width && size >= 0
    ensures 0 <= col * size <= (width - 1) * size
  {
    PyInt.MulNonneg(col, size);
    PyInt.MulNonneg(width - 1 - col, size);
    assert (width - 1) * size == (width - 1 - col) * size + col * size;
  }

  /** Pixel coordinates of a source cell are whole tiles, and dividing them
      by the tile size gives back the column and row that encode `id`. */
  lemma SourceCellRoundTrip(id: int, cellsPerRow: int, tileSize: int)
    requires cellsPerRow > 0 && tileSize > 0
    ensures SourceCell(id, cellsPerRow, tileSize).Ok?
    ensures var c := SourceCell(id, cellsPerRow, tileSize).value;
            c.x % tileSize == 0 && c.y % tileSize == 0 &&
            id == (c.y / tileSize) * cellsPerRow + c.x / tileSize
  {
    var col, row := PyInt.Mod(id, cellsPerRow), PyInt.FloorDiv(id, cellsPerRow);
    var c := SourceCell(id, cellsPerRow, tileSize).value;
    assert c == Cell(col * tileSize, row * tileSize);
    PyInt.DivModUnique(col * tileSize, tileSize, col, 0);
    PyInt.DivModUnique(row * tileSize, tileSize, row, 0);
    assert id == cellsPerRow * row + col;
  }

  /** Conversely, the tile in column `col` and row `row` of the sheet has
      exactly that cell as its source. */
  lemma SourceCellOfGridCell(col: int, row: int, cellsPerRow: int, tileSize: int)
    requires cellsPerRow > 0 && 0 <= col < cellsPerRow
    ensures SourceCell(row * cellsPerRow + col, cellsPerRow, tileSize)
            == Ok(Cell(col * tileSize, row * tileSize))
  {
    PyInt.DivModUnique(row * cellsPerRow + col, cellsPerRow, row, col);
  }

  // ---------------------------------------------------------------------
  // Drawing: the blits `draw_tilemap` issues

  /** One `blit` of the spritesheet: where it lands on the canvas (before
      rounding to whole pixels) and the source area. */
  datatype Blit = Blit(dest: Vec2, src: IntRect)

  function DrawTile(t: Tile, cellsPerRow: int, tileSize: int, pos: Vec2): Result<Blit> {
    match SourceCell(t.id, cellsPerRow, tileSize)
    case Err(e) => Err(e)
    case Ok(c) =>
      Ok(Blit(Vec2(pos.x + (t.x * tileSize) as real, pos.y + (t.y * tileSize) as real),
              IntRect(c.x, c.y, tileSize, tileSize)))
  }

  /** Sequential composition of two runs of blits: the first failure stops. */
  function Then(a: Result<seq<Blit>>, b: Result<seq<Blit>>): Result<seq<Blit>> {
    if a.Err? then a else if b.Err? then b else Ok(a.value + b.value)
  }

  function DrawTiles(tiles: seq<Tile>, cellsPerRow: int, tileSize: int, pos: Vec2): Result<seq<Blit>> {
    if tiles == [] then Ok([])
    else
      match DrawTile(tiles[0], cellsPerRow, tileSize, pos)
      case Err(e) => Err(e)
      case Ok(b) => Then(Ok([b]), DrawTiles(tiles[1..], cellsPerRow, tileSize, pos))
  }

  function DrawLayer(l: Layer, cellsPerRow: int, tileSize: int, pos: Vec2): Result<seq<Blit>> {
    if l.name != EntitiesLayer then DrawTiles(l.tiles, cellsPerRow, tileSize, pos) else Ok([])
  }

  /** The layers are drawn last first, so that the first layer of the file
      ends up on top. */
  function DrawLayers(layers: seq<Layer>, cellsPerRow: int, tileSize: int, pos: Vec2): Result<seq<Blit>>
    decreases |layers|
  {
    if layers == [] then Ok([])
    else Then(DrawLayer(layers[|layers| - 1], cellsPerRow, tileSize, pos),
              DrawLayers(layers[..|layers| - 1], cellsPerRow, tileSize, pos))
  }

  /** `draw_tilemap(surf, map_data, cellsPerRow, pos)` as the list of blits it makes. */
  function DrawTilemap(m: MapData, cellsPerRow: int, pos: Vec2): Result<seq<Blit>> {
    DrawLayers(m.layers, cellsPerRow, m.tileSize, pos)
  }

  /** With a usable sheet width, a tile list draws one blit per tile, in
      order, each taking one tile-sized area from the tile's source cell. */
  lemma {:induction false} DrawTilesEach(tiles: seq<Tile>, cellsPerRow: int, tileSize: int, pos: Vec2)
    requires cellsPerRow != 0
    ensures DrawTiles(tiles, cellsPerRow, tileSize, pos).Ok?
    ensures var bs := DrawTiles(tiles, cellsPerRow, tileSize, pos).value;
            |bs| == |tiles| &&
            forall k :: 0 <= k < |tiles| ==>
              bs[k] == DrawTile(tiles[k], cellsPerRow, tileSize, pos).value &&
              bs[k].src == IntRect(SourceCell(tiles[k].id, cellsPerRow, tileSize).value.x,
                                   SourceCell(tiles[k].id, cellsPerRow, tileSize).value.y,
                                   tileSize, tileSize)
    decreases |tiles|
  {
    if tiles != [] {
      DrawTilesEach(tiles[1..], cellsPerRow, tileSize, pos);
      var bs := DrawTiles(tiles, cellsPerRow, tileSize, pos).value;
      forall k | 0 <= k < |tiles|
        ensures bs[k] == DrawTile(tiles[k], cellsPerRow, tileSize, pos).value
      {
        if k > 0 { assert tiles[1..][k - 1] == tiles[k]; }
      }
    }
  }

  /** Drawing fails exactly when the sheet width is zero and some layer other
      than the entities layer has a tile to draw. */
  lemma {:induction false} DrawTilemapFails(layers: seq<Layer>, cellsPerRow: int, tileSize: int, pos: Vec2)
    ensures DrawLayers(layers, cellsPerRow, tileSize, pos).Err? <==>
            cellsPerRow == 0 &&
            exists i :: 0 <= i < |layers| && layers[i].name != EntitiesLayer && layers[i].tiles != []
    decreases |layers|
  {
    if layers != [] {
      var n := |layers| - 1;
      var front := layers[..n];
      DrawTilemapFails(front, cellsPerRow, tileSize, pos);
      if cellsPerRow != 0 {
        DrawTilesEach(layers[n].tiles, cellsPerRow, tileSize, pos);
      } else {
        assert layers[n].tiles != [] ==> DrawTiles(layers[n].tiles, cellsPerRow, tileSize, pos).Err?;
        if exists i :: 0 <= i < |layers| && layers[i].name != EntitiesLayer && layers[i].tiles != [] {
          var i :| 0 <= i < |layers| && layers[i].name != EntitiesLayer && layers[i].tiles != [];
          if i < n { assert front[i] == layers[i]; }
        }
        if exists i :: 0 <= i < |front| && front[i].name != EntitiesLayer && front[i].tiles != [] {
          var i :| 0 <= i < |front| && front[i].name != EntitiesLayer && front[i].tiles != [];
          assert layers[i] == front[i];
        }
      }
    }
  }

  /** Layer order is reversed: drawing `a + b` draws all of `b` before `a`. */
  lemma {:induction false} DrawLayersReversed(a: seq<Layer>, b: seq<Layer>, cellsPerRow: int, tileSize: int, pos: Vec2)
    requires cellsPerRow != 0
    ensures DrawLayers(a + b, cellsPerRow, tileSize, pos) ==
            Then(DrawLayers(b, cellsPerRow, tileSize, pos), DrawLayers(a, cellsPerRow, tileSize, pos))
    decreases |b|
  {
    DrawLayersOk(a, cellsPerRow, tileSize, pos);
    if b == [] {
      assert a + b == a;
      assert [] + DrawLayers(a, cellsPerRow, tileSize, pos).value == DrawLayers(a, cellsPerRow, tileSize, pos).value;
    } else {
      var n := |b| - 1;
      var ab := a + b;
      assert ab[..|ab| - 1] == a + b[..n];
      assert ab[|ab| - 1] == b[n];
      DrawLayersReversed(a, b[..n], cellsPerRow, tileSize, pos);
      DrawLayersOk(b[..n], cellsPerRow, tileSize, pos);
      DrawLayerOk(b[n], cellsPerRow, tileSize, pos);
      var l := DrawLayer(b[n], cellsPerRow, tileSize, pos).value;
      var da := DrawLayers(a, cellsPerRow, tileSize, pos).value;
      var db' := DrawLayers(b[..n], cellsPerRow, tileSize, pos).value;
      assert DrawLayers(ab, cellsPerRow, tileSize, pos) == Ok(l + (db' + da));
      assert DrawLayers(b, cellsPerRow, tileSize, pos) == Ok(l + db');
      assert l + (db' + da) == (l + db') + da;
    }
  }

  lemma {:induction false} DrawLayersOk(layers: seq<Layer>, cellsPerRow: int, tileSize: int, pos: Vec2)
    requires cellsPerRow != 0
    ensures DrawLayers(layers, cellsPerRow, tileSize, pos).Ok?
    decreases |layers|
  {
    if layers != [] {
      DrawLayersOk(layers[..|layers| - 1], cellsPerRow, tileSize, pos);
      DrawLayerOk(layers[|layers| - 1], cellsPerRow, tileSize, pos);
    }
  }

  lemma DrawLayerOk(l: Layer, cellsPerRow: int, tileSize: int, pos: Vec2)
    requires cellsPerRow != 0
    ensures DrawLayer(l, cellsPerRow, tileSize, pos).Ok?
  {
    if l.name != EntitiesLayer {
      DrawTilesEach(l.tiles, cellsPerRow, tileSize, pos);
    }
  }

  /** The entities layer is never drawn: removing it changes no blit. */
  lemma DrawSkipsEntities(a: seq<Layer>, l: Layer, b: seq<Layer>, cellsPerRow: int, tileSize: int, pos: Vec2)
    requires cellsPerRow != 0 && l.name == EntitiesLayer
    ensures DrawLayers(a + [l] + b, cellsPerRow, tileSize, pos) == DrawLayers(a + b, cellsPerRow, tileSize, pos)
  {
    DrawLayersReversed(a + [l], b, cellsPerRow, tileSize, pos);
    DrawLayersReversed(a, [l], cellsPerRow, tileSize, pos);
    DrawLayersReversed(a, b, cellsPerRow, tileSize, pos);
    DrawLayersOk(a, cellsPerRow, tileSize, pos);
    DrawLayersOk(b, cellsPerRow, tileSize, pos);
    var da := DrawLayers(a, cellsPerRow, tileSize, pos).value;
    var db := DrawLayers(b, cellsPerRow, tileSize, pos).value;
    assert DrawLayers([l], cellsPerRow, tileSize, pos) == Ok([]) by {
      assert [l][..0] == [];
    }
    assert DrawLayers(a + [l], cellsPerRow, tileSize, pos) == Ok(da) by {
      assert [] + da == da;
    }
  }

  // ---------------------------------------------------------------------
  // Collision boxes

  /** The box of one tile: a tile-sized square at its grid cell. */
  function TileRect(t: Tile, tileSize: int): Rect {
    Rect((t.x * tileSize) as real, (t.y * tileSize) as real, tileSize as real, tileSize as real)
  }

  function LayerRects(l: Layer, tileSize: int): seq<Rect> {
    if l.collider then seq(|l.tiles|, k requires 0 <= k < |l.tiles| => TileRect(l.tiles[k], tileSize))
    else []
  }

  /** The collision boxes of the layers, layer after layer, tile after tile. */
  function CollisionRects(layers: seq<Layer>, tileSize: int): seq<Rect>
    decreases |layers|
  {
    if layers == [] then []
    else CollisionRects(layers[..|layers| - 1], tileSize) + LayerRects(layers[|layers| - 1], tileSize)
  }

  /** `create_tilemap_collision`: appends a box for every tile of every
      collider layer. */
  method CreateTilemapCollision(m: MapData) returns (rects: seq<Rect>)
    ensures rects == CollisionRects(m.layers, m.tileSize)
  {
    rects := [];
    for i := 0 to |m.layers|
      invariant rects == CollisionRects(m.layers[..i], m.tileSize)
    {
      var layer := m.layers[i];
      assert m.layers[..i + 1][..i] == m.layers[..i];
      if layer.collider {
        for j := 0 to |layer.tiles|
          invariant rects == CollisionRects(m.layers[..i], m.tileSize) + LayerRects(layer, m.tileSize)[..j]
        {
          var tile := layer.tiles[j];
          var rect := Rect((tile.x * m.tileSize) as real, (tile.y * m.tileSize) as real,
                           m.tileSize as real, m.tileSize as real);
          assert LayerRects(layer, m.tileSize)[..j + 1] == LayerRects(layer, m.tileSize)[..j] + [rect];
          rects := rects + [rect];
        }
        assert LayerRects(layer, m.tileSize)[..|layer.tiles|] == LayerRects(layer, m.tileSize);
      }
    }
    assert m.layers[..|m.layers|] == m.layers;
  }

  lemma {:induction false} CollisionRectsAppend(a: seq<Layer>, b: seq<Layer>, tileSize: int)
    ensures CollisionRects(a + b, tileSize) == CollisionRects(a, tileSize) + CollisionRects(b, tileSize)
    decreases |b|
  {
    if b == [] {
      assert a + b == a;
    } else {
      var n := |b| - 1;
      var ab := a + b;
      assert ab[..|ab| - 1] == a + b[..n];
      assert ab[|ab| - 1] == b[n];
      var last := LayerRects(b[n], tileSize);
      assert CollisionRects(ab, tileSize) == CollisionRects(a + b[..n], tileSize) + last;
      CollisionRectsAppend(a, b[..n], tileSize);
      assert CollisionRects(b, tileSize) == CollisionRects(b[..n], tileSize) + last;
      assert CollisionRects(a, tileSize) + CollisionRects(b[..n], tileSize) + last ==
             CollisionRects(a, tileSize) + (CollisionRects(b[..n], tileSize) + last);
    }
  }

  /** The boxes of layer `i` sit, in tile order, between the boxes of the
      layers before it and those of the layers after it. */
  lemma CollisionRectsOrder(layers: seq<Layer>, i: int, tileSize: int)
    requires 0 <= i < |layers|
    ensures CollisionRects(layers, tileSize) ==
            CollisionRects(layers[..i], tileSize) + LayerRects(layers[i], tileSize) +
            CollisionRects(layers[i + 1..], tileSize)
  {
    assert layers == layers[..i] + [layers[i]] + layers[i + 1..];
    CollisionRectsAppend(layers[..i] + [layers[i]], layers[i + 1..], tileSize);
    CollisionRectsAppend(layers[..i], [layers[i]], tileSize);
    assert [layers[i]][..0] == [];
  }

  /** A layer without `collider` contributes no box. */
  lemma NonColliderAddsNothing(a: seq<Layer>, l: Layer, b: seq<Layer>, tileSize: int)
    requires !l.collider
    ensures CollisionRects(a + [l] + b, tileSize) == CollisionRects(a + b, tileSize)
  {
    CollisionRectsAppend(a + [l], b, tileSize);
    CollisionRectsAppend(a, [l], tileSize);
    CollisionRectsAppend(a, b, tileSize);
    assert [l][..0] == [];
  }

  /** The number of tiles on collider layers. */
  function ColliderTileCount(layers: seq<Layer>): nat
    decreases |layers|
  {
    if layers == [] then 0
    else ColliderTileCount(layers[1..]) + (if layers[0].collider then |layers[0].tiles| else 0)
  }

  /** Exactly one box per collider tile. */
  lemma {:induction false} CollisionRectsCount(layers: seq<Layer>, tileSize: int)
    ensures |CollisionRects(layers, tileSize)| == ColliderTileCount(layers)
    decreases |layers|
  {
    if layers != [] {
      CollisionRectsCount(layers[1..], tileSize);
      assert layers == [layers[0]] + layers[1..];
      CollisionRectsAppend([layers[0]], layers[1..], tileSize);
      assert [layers[0]][..0] == [];
    }
  }

  /** `r` is the box of some tile on a collider layer of `layers`. */
  predicate FromColliderTile(r: Rect, layers: seq<Layer>, tileSize: int) {
    exists i, j :: 0 <= i < |layers| && layers[i].collider && 0 <= j < |layers[i].tiles| &&
                   r == TileRect(layers[i].tiles[j], tileSize)
  }

  /** Every box is the tile-sized square of some tile on a collider layer. */
  lemma {:induction false} CollisionRectsSound(layers: seq<Layer>, tileSize: int)
    ensures forall r :: r in CollisionRects(layers, tileSize) ==>
              r.w == tileSize as real && r.h == tileSize as real && FromColliderTile(r, layers, tileSize)
    decreases |layers|
  {
    if layers != [] {
      var n := |layers| - 1;
      var front := layers[..n];
      CollisionRectsSound(front, tileSize);
      assert CollisionRects(layers, tileSize) == CollisionRects(front, tileSize) + LayerRects(layers[n], tileSize);
      forall r | r in CollisionRects(layers, tileSize)
        ensures r.w == tileSize as real && r.h == tileSize as real && FromColliderTile(r, layers, tileSize)
      {
        if r in LayerRects(layers[n], tileSize) {
          LastLayerSound(layers, r, tileSize);
        } else {
          FrontSound(layers, r, tileSize);
        }
      }
    }
  }

  lemma LastLayerSound(layers: seq<Layer>, r: Rect, tileSize: int)
    requires layers != [] && r in LayerRects(layers[|layers| - 1], tileSize)
    ensures r.w == tileSize as real && r.h == tileSize as real && FromColliderTile(r, layers, tileSize)
  {
    var n := |layers| - 1;
    var j :| 0 <= j < |layers[n].tiles| && r == TileRect(layers[n].tiles[j], tileSize);
  }

  lemma FrontSound(layers: seq<Layer>, r: Rect, tileSize: int)
    requires layers != []
    requires FromColliderTile(r, layers[..|layers| - 1], tileSize)
    ensures FromColliderTile(r, layers, tileSize)
  {
    var front := layers[..|layers| - 1];
    var i, j :| 0 <= i < |front| && front[i].collider && 0 <= j < |front[i].tiles| &&
                r == TileRect(front[i].tiles[j], tileSize);
    assert layers[i] == front[i];
  }

  /** Every tile of a collider layer has its box among the boxes. */
  lemma {:induction false} CollisionRectsComplete(layers: seq<Layer>, tileSize: int)
    ensures forall i, j :: 0 <= i < |layers| && layers[i].collider && 0 <= j < |layers[i].tiles| ==>
              TileRect(layers[i].tiles[j], tileSize) in CollisionRects(layers, tileSize)
    decreases |layers|
  {
    if layers != [] {
      var n := |layers| - 1;
      var front := layers[..n];
      CollisionRectsComplete(front, tileSize);
      forall i, j | 0 <= i < |layers| && layers[i].collider && 0 <= j < |layers[i].tiles|
        ensures TileRect(layers[i].tiles[j], tileSize) in CollisionRects(layers, tileSize)
      {
        if i == n {
          assert LayerRects(layers[n], tileSize)[j] == TileRect(layers[i].tiles[j], tileSize);
        } else {
          assert front[i] == layers[i];
        }
      }
    }
  }

  // ---------------------------------------------------------------------
  // Player spawn

  /** `tile["attributes"]["type"]`, failing with the missing key. */
  function TileType(t: Tile): Result<string> {
    match t.attributes
    case None => Err(KeyError("attributes"))
    case Some(a) => if "type" in a then Ok(a["type"]) else Err(KeyError("type"))
  }

  /** The pixel position of a tile's cell. */
  function TilePos(t: Tile, tileSize: int): Vec2 {
    Vec2((t.x * tileSize) as real, (t.y * tileSize) as real)
  }

  /** Where a scan for the spawn tile stopped: at the spawn, at the end,
      or at a tile whose type lookup raised. */
  datatype Scan = Found(pos: Vec2) | NotFound | Failed(error: Error)

  function ScanTiles(tiles: seq<Tile>, tileSize: int): Scan {
    if tiles == [] then NotFound
    else
      match TileType(tiles[0])
      case Err(e) => Failed(e)
      case Ok(ty) =>
        if ty == PlayerSpawnType then Found(TilePos(tiles[0], tileSize))
        else ScanTiles(tiles[1..], tileSize)
  }

  function ScanLayers(layers: seq<Layer>, tileSize: int): Scan {
    if layers == [] then NotFound
    else if layers[0].name == EntitiesLayer then
      var s := ScanTiles(layers[0].tiles, tileSize);
      if s.NotFound? then ScanLayers(layers[1..], tileSize) else s
    else ScanLayers(layers[1..], tileSize)
  }

  /** `get_player_spawn`: the position of the first `player_spawn` tile on an
      entities layer, the origin when there is none. */
  function GetPlayerSpawn(m: MapData): Result<Vec2> {
    match ScanLayers(m.layers, m.tileSize)
    case Found(p) => Ok(p)
    case NotFound => Ok(Zero)
    case Failed(e) => Err(e)
  }

  /** The tiles of all entities layers, in the order the search visits them. */
  function EntityTiles(layers: seq<Layer>): seq<Tile> {
    if layers == [] then []
    else (if layers[0].name == EntitiesLayer then layers[0].tiles else []) + EntityTiles(layers[1..])
  }

  /** The search reads the tile's type and goes on past it. */
  predicate PassesOver(t: Tile) {
    TileType(t).Ok? && TileType(t).value != PlayerSpawnType
  }

  predicate PassesOverFirst(tiles: seq<Tile>, k: int)
    requires 0 <= k <= |tiles|
  {
    forall j :: 0 <= j < k ==> PassesOver(tiles[j])
  }

  /** What the search returns on stopping at tile `t`. */
  function StopAt(t: Tile, tileSize: int): Scan {
    if TileType(t).Err? then Failed(TileType(t).error) else Found(TilePos(t, tileSize))
  }

  lemma {:induction false} ScanTilesAppend(a: seq<Tile>, b: seq<Tile>, tileSize: int)
    ensures ScanTiles(a + b, tileSize) ==
            if ScanTiles(a, tileSize).NotFound? then ScanTiles(b, tileSize) else ScanTiles(a, tileSize)
    decreases |a|
  {
    if a == [] {
      assert a + b == b;
    } else {
      assert (a + b)[0] == a[0];
      assert (a + b)[1..] == a[1..] + b;
      ScanTilesAppend(a[1..], b, tileSize);
    }
  }

  /** Searching layer by layer is searching the entities tiles in a row. */
  lemma {:induction false} ScanLayersIsFlat(layers: seq<Layer>, tileSize: int)
    ensures ScanLayers(layers, tileSize) == ScanTiles(EntityTiles(layers), tileSize)
    decreases |layers|
  {
    if layers != [] {
      ScanLayersIsFlat(layers[1..], tileSize);
      var own := if layers[0].name == EntitiesLayer then layers[0].tiles else [];
      ScanTilesAppend(own, EntityTiles(layers[1..]), tileSize);
    }
  }

  /** The scan stops at the first tile it cannot pass over, and runs to the
      end exactly when it can pass over every tile. */
  lemma {:induction false} ScanTilesFirstStop(tiles: seq<Tile>, tileSize: int)
    ensures ScanTiles(tiles, tileSize).NotFound? <==> PassesOverFirst(tiles, |tiles|)
    ensures forall k :: 0 <= k < |tiles| && PassesOverFirst(tiles, k) && !PassesOver(tiles[k]) ==>
              ScanTiles(tiles, tileSize) == StopAt(tiles[k], tileSize)
    decreases |tiles|
  {
    if tiles != [] {
      var rest := tiles[1..];
      ScanTilesFirstStop(rest, tileSize);
      assert forall j :: 0 <= j < |rest| ==> rest[j] == tiles[j + 1];
      assert PassesOverFirst(tiles, |tiles|) <==> PassesOver(tiles[0]) && PassesOverFirst(rest, |rest|) by {
        if PassesOver(tiles[0]) && PassesOverFirst(rest, |rest|) {
          forall j | 0 <= j < |tiles| ensures PassesOver(tiles[j]) {
            if j > 0 { assert tiles[j] == rest[j - 1]; }
          }
        }
      }
      forall k | 0 <= k < |tiles| && PassesOverFirst(tiles, k) && !PassesOver(tiles[k])
        ensures ScanTiles(tiles, tileSize) == StopAt(tiles[k], tileSize)
      {
        if k > 0 {
          assert PassesOver(tiles[0]);
          assert PassesOverFirst(rest, k - 1) by {
            forall j | 0 <= j < k - 1 ensures PassesOver(rest[j]) { assert PassesOver(tiles[j + 1]); }
          }
          assert rest[k - 1] == tiles[k];
        }
      }
    }
  }

  /** `get_player_spawn` against the flat list of entities tiles: the first
      `player_spawn` tile gives the position, a failed type lookup before it
      raises, and the origin comes back when every tile has a type and none
      is the spawn. */
  lemma GetPlayerSpawnSpec(m: MapData)
    ensures var e := EntityTiles(m.layers);
            (PassesOverFirst(e, |e|) ==> GetPlayerSpawn(m) == Ok(Zero)) &&
            (forall k :: 0 <= k < |e| && PassesOverFirst(e, k) && TileType(e[k]) == Ok(PlayerSpawnType) ==>
               GetPlayerSpawn(m) == Ok(TilePos(e[k], m.tileSize))) &&
            (forall k :: 0 <= k < |e| && PassesOverFirst(e, k) && TileType(e[k]).Err? ==>
               GetPlayerSpawn(m) == Err(TileType(e[k]).error))
  {
    ScanLayersIsFlat(m.layers, m.tileSize);
    ScanTilesFirstStop(EntityTiles(m.layers), m.tileSize);
  }

  /** The tiles the search visits are exactly those of the entities layers. */
  lemma {:induction false} EntityTilesMembers(layers: seq<Layer>)
    ensures forall t :: t in EntityTiles(layers) <==>
              exists i :: 0 <= i < |layers| && layers[i].name == EntitiesLayer && t in layers[i].tiles
    decreases |layers|
  {
    if layers != [] {
      EntityTilesMembers(layers[1..]);
      forall t | t in EntityTiles(layers)
        ensures exists i :: 0 <= i < |layers| && layers[i].name == EntitiesLayer && t in layers[i].tiles
      {
        if !(layers[0].name == EntitiesLayer && t in layers[0].tiles) {
          assert t in EntityTiles(layers[1..]);
          var i :| 0 <= i < |layers[1..]| && layers[1..][i].name == EntitiesLayer && t in layers[1..][i].tiles;
          assert layers[i + 1] == layers[1..][i];
        }
      }
      forall t, i | 0 <= i < |layers| && layers[i].name == EntitiesLayer && t in layers[i].tiles
        ensures t in EntityTiles(layers)
      {
        if i > 0 { assert layers[1..][i - 1] == layers[i]; }
      }
    }
  }
}
