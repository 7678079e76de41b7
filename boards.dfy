/** Tiles and the board (citadel/board.py).

    The board is a Python dict from coordinates to tiles, so it is modelled as an ordered map:
    the keys in insertion order, and the entities of each stored tile. A tile is an entity
    list at one coordinate; looking up an absent coordinate hands out an empty tile that is
    not stored. */
module Boards {
  import opened Util
  import opened Entities

  datatype Board = Board(name: string, keys: seq<Coordinate>, tiles: map<Coordinate, seq<Entity>>)
  {
    /** The keys are those of the map, each listed once. */
    ghost predicate Valid() {
      && (forall i, j :: 0 <= i < j < |keys| ==> keys[i] != keys[j])
      && (forall c :: c in tiles <==> c in keys)
    }
  }

  /** Board(game): named "main", no tiles. */
  const EmptyBoard := Board("main", [], map[])

  /** A tile: the board it belongs to, its coordinate and its entities. */
  datatype Tile = Tile(boardName: string, coordinate: Coordinate, entities: seq<Entity>)

  /** Tile.__eq__: same coordinate on the same board; the contents are not compared. */
  predicate SameTile(a: Tile, b: Tile) {
    a.coordinate == b.coordinate && a.boardName == b.boardName
  }

  /** Board.__getitem__ with a Coordinate: the stored tile, or a new empty one. */
  function TileAt(b: Board, c: Coordinate): Tile {
    Tile(b.name, c, if c in b.tiles then b.tiles[c] else [])
  }

  /** The keys Board.__getitem__ accepts. */
  datatype Key = CoordinateKey(c: Coordinate) | TupleKey(x: int, y: int)

  datatype Subscript = Single(key: Key) | Several(keys: seq<Key>) | Unsupported(typeName: string)

  function KeyCoordinate(k: Key): Coordinate {
    match k
    case CoordinateKey(c) => c
    case TupleKey(x, y) => Coordinate(x, y)
  }

  /** Board.__getitem__: one tile for a Coordinate or a tuple, a list of tiles for a list,
      TypeError for anything else. Absent coordinates give empty tiles; nothing is stored. */
  function GetItem(b: Board, s: Subscript): (r: Result<seq<Tile>>)
    ensures r.Err? <==> s.Unsupported?
    ensures r.Err? ==> r.error.TypeError?
    ensures s.Single? ==> r == Ok([TileAt(b, KeyCoordinate(s.key))])
    ensures s.Several? ==> r.Ok? && |r.value| == |s.keys| && forall i :: 0 <= i < |s.keys| ==>
      r.value[i] == TileAt(b, KeyCoordinate(s.keys[i]))
  {
    match s
    case Single(k) => Ok([TileAt(b, KeyCoordinate(k))])
    case Several(ks) => Ok(seq(|ks|, i requires 0 <= i < |ks| => TileAt(b, KeyCoordinate(ks[i]))))
    case Unsupported(t) =>
      Err(TypeError("Coordinate must be a " + "Coordinate or list of " + "Coordinates, not " + "<class '" + t + "'>."))
  }

  /** A tuple key and a Coordinate key for the same cell give the same tile; an absent cell
      gives an empty tile there. */
  lemma KeysAgree(b: Board, x: int, y: int)
    ensures GetItem(b, Single(TupleKey(x, y))) == GetItem(b, Single(CoordinateKey(Coordinate(x, y))))
    ensures Coordinate(x, y) !in b.tiles ==> GetItem(b, Single(TupleKey(x, y))).value[0].entities == []
  {
  }

  // ---------------------------------------------------------------------------------------
  // Tile queries

  /** Tile.get_by_layer: the first entity of the layer. */
  function GetByLayer(items: seq<Entity>, layer: Layer): (r: Option<Entity>)
    ensures r.Some? ==> exists i :: (0 <= i < |items| && items[i] == r.value && r.value.LayerOf() == layer
                                     && forall j :: 0 <= j < i ==> items[j].LayerOf() != layer)
    ensures r.None? <==> forall i :: 0 <= i < |items| ==> items[i].LayerOf() != layer
  {
    if |items| == 0 then None
    else if items[0].LayerOf() == layer then Some(items[0])
    else
      var rest := GetByLayer(items[1..], layer);
      assert forall i :: 1 <= i < |items| ==> items[i] == items[1..][i - 1];
      rest
  }

  /** Tile.land and Tile.citadel: the first entity of the class. */
  function FirstOfKind(items: seq<Entity>, k: Kind): (r: Option<Entity>)
    ensures r.Some? ==> exists i :: (0 <= i < |items| && items[i] == r.value && r.value.kind == k
                                     && forall j :: 0 <= j < i ==> items[j].kind != k)
    ensures r.None? <==> forall i :: 0 <= i < |items| ==> items[i].kind != k
  {
    if |items| == 0 then None
    else if items[0].kind == k then Some(items[0])
    else
      var rest := FirstOfKind(items[1..], k);
      assert forall i :: 1 <= i < |items| ==> items[i] == items[1..][i - 1];
      rest
  }

  predicate HasLayer(items: seq<Entity>, layer: Layer) {
    exists i :: 0 <= i < |items| && items[i].LayerOf() == layer
  }

  /** Tile.is_water: the tile holds no Land (a Turtle alone is still water). */
  predicate IsWater(items: seq<Entity>) {
    !HasType(items, OfKind(Land))
  }

  /** Tile.has_entities. */
  predicate HasEntities(items: seq<Entity>) { |items| > 0 }

  /** str() of a tile: the EntityList form with the tile's name. */
  function TileText(t: Tile): string {
    ListText(Some(t.boardName + CoordinateText(t.coordinate)), t.entities)
  }

  /** Tile.can_add: the entity's layer must be free, and an entity above TERRAIN needs an
      entity on the layer below. */
  function CanAdd(items: seq<Entity>, e: Entity): (r: BoolWithReason)
    ensures r.Pass? ==> forall i :: 0 <= i < |items| ==> items[i].LayerOf() != e.LayerOf()
    ensures r.Pass? && e.LayerOf() == Layer.Piece ==> exists i :: 0 <= i < |items| && items[i].LayerOf() == Layer.Terrain
  {
    var occupant := GetByLayer(items, e.LayerOf());
    if occupant.Some? then
      Fail("layer " + e.LayerOf().Name() + " already occupied by " + EntityText(occupant.value))
    else if e.LayerOf().Below().Some? && GetByLayer(items, e.LayerOf().Below().value).None? then
      Fail(e.LayerOf().Name() + ("-layer entities must be " + "placed on top of a ")
        + e.LayerOf().Below().value.Name() + "-layer entity")
    else Pass
  }

  /** can_add fails exactly when the layer is taken, or the entity is a PIECE-layer one and
      the tile has no TERRAIN entity. */
  lemma CanAddFailsIff(items: seq<Entity>, e: Entity)
    ensures CanAdd(items, e).Fail? <==>
      HasLayer(items, e.LayerOf()) || (e.LayerOf() == Layer.Piece && !HasLayer(items, Layer.Terrain))
  {
    if GetByLayer(items, e.LayerOf()).Some? {
      var i :| 0 <= i < |items| && items[i] == GetByLayer(items, e.LayerOf()).value;
    }
    if e.LayerOf() == Layer.Piece && GetByLayer(items, Layer.Terrain).Some? {
      var i :| 0 <= i < |items| && items[i] == GetByLayer(items, Layer.Terrain).value;
    }
  }

  /** The layering rule of a tile: at most one entity per layer, and a PIECE-layer entity
      only on top of a TERRAIN-layer one. */
  predicate Layered(items: seq<Entity>) {
    DistinctLayers(items) && (HasLayer(items, Layer.Piece) ==> HasLayer(items, Layer.Terrain))
  }

  predicate DistinctLayers(items: seq<Entity>) {
    forall i, j :: 0 <= i < j < |items| ==> items[i].LayerOf() != items[j].LayerOf()
  }

  /** Adding what can_add admits keeps a tile layered. */
  lemma CanAddKeepsLayered(items: seq<Entity>, e: Entity, e': Entity)
    requires Layered(items) && CanAdd(items, e).Pass? && e'.LayerOf() == e.LayerOf()
    ensures Layered(items + [e'])
  {
    CanAddFailsIff(items, e);
    var r := items + [e'];
    assert forall k :: 0 <= k < |r| ==> r[k] == if k < |items| then items[k] else e';
    if e'.LayerOf() == Layer.Piece {
      var k :| 0 <= k < |items| && items[k].LayerOf() == Layer.Terrain;
      assert r[k] == items[k];
    } else {
      assert !HasLayer(items, Layer.Piece);
    }
  }

  /** Taking a PIECE-layer entity off a layered tile leaves it layered. */
  lemma RemovingPieceLayerKeepsLayered(items: seq<Entity>, i: nat)
    requires Layered(items) && i < |items| && items[i].LayerOf() == Layer.Piece
    ensures Layered(items[..i] + items[i + 1..])
  {
    var r := items[..i] + items[i + 1..];
    assert forall k :: 0 <= k < |r| ==> r[k] == if k < i then items[k] else items[k + 1];
    var t :| 0 <= t < |items| && items[t].LayerOf() == Layer.Terrain;
    if HasLayer(r, Layer.Piece) {
      assert r[if t < i then t else t - 1] == items[t];
    }
  }

  /** The tiles around a tile (Tile.get_adjacent_tiles); ValueError when asked for neither
      neighbourhood. */
  function AdjacentTiles(b: Board, c: Coordinate, orthogonal: bool, diagonal: bool): (r: Result<seq<Tile>>)
    ensures r.Err? <==> !orthogonal && !diagonal
    ensures r.Ok? ==> (|r.value| == |AdjacentCoordinates(c, orthogonal, diagonal).value|
                       && forall i :: 0 <= i < |r.value| ==> r.value[i] == TileAt(b, AdjacentCoordinates(c, orthogonal, diagonal).value[i]))
  {
    match AdjacentCoordinates(c, orthogonal, diagonal)
    case Err(e) => Err(e)
    case Ok(cs) => Ok(seq(|cs|, i requires 0 <= i < |cs| => TileAt(b, cs[i])))
  }

  // ---------------------------------------------------------------------------------------
  // Changing the board

  /** `board[c] = tile`: replace a stored tile in place, or add a new key at the end. */
  function Put(b: Board, c: Coordinate, items: seq<Entity>): (r: Board)
    ensures r.name == b.name && r.tiles == b.tiles[c := items]
    ensures r.keys == if c in b.tiles then b.keys else b.keys + [c]
    ensures b.Valid() ==> r.Valid()
  {
    Board(b.name, if c in b.tiles then b.keys else b.keys + [c], b.tiles[c := items])
  }

  function Without(keys: seq<Coordinate>, c: Coordinate): (r: seq<Coordinate>)
    ensures forall k :: k in r <==> k in keys && k != c
    ensures (forall i, j :: 0 <= i < j < |keys| ==> keys[i] != keys[j]) ==> forall i, j :: 0 <= i < j < |r| ==> r[i] != r[j]
  {
    if |keys| == 0 then []
    else
      var rest := Without(keys[1..], c);
      assert forall k :: k in keys <==> k == keys[0] || k in keys[1..];
      assert keys[0] !in keys[1..] ==> keys[0] !in rest;
      if keys[0] == c then rest else [keys[0]] + rest
  }

  /** `del board[c]`. */
  function Delete(b: Board, c: Coordinate): (r: Board)
    ensures r.name == b.name && r.tiles == b.tiles - {c} && r.keys == Without(b.keys, c)
    ensures b.Valid() ==> r.Valid()
  {
    Board(b.name, Without(b.keys, c), b.tiles - {c})
  }

  /** Tile.append on the tile at c: refused with ValueError unless can_add admits the entity;
      otherwise the entity goes last (its location becoming the tile when reset_location),
      and the tile is stored under its coordinate. */
  function TileAppend(b: Board, c: Coordinate, e: Entity, resetLocation: bool): (r: Result<Board>)
    ensures r.Err? <==> CanAdd(TileAt(b, c).entities, e).Fail?
    ensures r.Err? ==> r.error == ValueError("Cannot add " + e.kind.ClassName() + " to tile at "
      + CoordinateText(c) + ": BoolWithReason(" + CanAdd(TileAt(b, c).entities, e).why + ")")
    ensures r.Ok? ==> r.value == Put(b, c, Append(TileAt(b, c).entities, e, OnTile(c), resetLocation))
  {
    var admitted := CanAdd(TileAt(b, c).entities, e);
    if admitted.Fail? then
      Err(ValueError("Cannot add " + e.kind.ClassName() + " to tile at " + CoordinateText(c)
        + ": BoolWithReason(" + admitted.why + ")"))
    else Ok(Put(b, c, Append(TileAt(b, c).entities, e, OnTile(c), resetLocation)))
  }

  /** On success the entity is last on its tile, located there, the tile is stored, and no
      other tile changes. */
  lemma TileAppendEffect(b: Board, c: Coordinate, e: Entity)
    requires TileAppend(b, c, e, true).Ok?
    ensures var r := TileAppend(b, c, e, true).value;
      && c in r.tiles && r.tiles[c] == TileAt(b, c).entities + [e.(location := OnTile(c))]
      && forall k :: k != c ==> TileAt(r, k) == TileAt(b, k)
  {
  }

  /** The position of the first element that is the entity. */
  function IndexOfId(items: seq<Entity>, id: EntityId): (i: nat)
    requires ContainsId(items, id)
    ensures i < |items| && items[i].id == id && forall j :: 0 <= j < i ==> items[j].id != id
  {
    if items[0].id == id then 0
    else
      assert ContainsId(items[1..], id) by {
        var k :| 0 <= k < |items| && items[k].id == id;
        assert items[1..][k - 1] == items[k];
      }
      1 + IndexOfId(items[1..], id)
  }

  /** list.remove on an entity list: drop the first element that is the entity; ValueError if
      there is none. */
  function RemoveEntity(items: seq<Entity>, id: EntityId): (r: Result<seq<Entity>>)
    ensures r.Err? <==> !ContainsId(items, id)
    ensures r.Err? ==> r.error.ValueError?
    ensures r.Ok? ==> |r.value| == |items| - 1 && forall k :: 0 <= k < |r.value| ==>
      r.value[k] == if k < IndexOfId(items, id) then items[k] else items[k + 1]
  {
    if !ContainsId(items, id) then Err(ValueError("list.remove(x): x not " + "in list"))
    else
      var i := IndexOfId(items, id);
      Ok(items[..i] + items[i + 1..])
  }

  /** Board.get_coordinate_of_entity: the first key, in board order, whose tile holds the
      entity. */
  function CoordinateOfEntity(b: Board, id: EntityId): (r: Option<Coordinate>)
    ensures r.Some? ==> r.value in b.keys && r.value in b.tiles && ContainsId(b.tiles[r.value], id)
    ensures r.None? <==> forall k :: k in b.keys && k in b.tiles ==> !ContainsId(b.tiles[k], id)
  {
    FirstKeyHolding(b, b.keys, id)
  }

  function FirstKeyHolding(b: Board, keys: seq<Coordinate>, id: EntityId): (r: Option<Coordinate>)
    ensures r.Some? ==> r.value in keys && r.value in b.tiles && ContainsId(b.tiles[r.value], id)
    ensures r.None? <==> forall k :: k in keys && k in b.tiles ==> !ContainsId(b.tiles[k], id)
  {
    if |keys| == 0 then None
    else if keys[0] in b.tiles && ContainsId(b.tiles[keys[0]], id) then Some(keys[0])
    else
      var rest := FirstKeyHolding(b, keys[1..], id);
      assert forall k :: k in keys <==> k == keys[0] || k in keys[1..];
      rest
  }

  /** Board.remove: take the entity off the tile holding it, and delete the key once the tile
      is empty; ValueError when no tile holds it. */
  function Remove(b: Board, e: Entity): (r: Result<Board>)
    ensures r.Err? <==> forall k :: k in b.keys && k in b.tiles ==> !ContainsId(b.tiles[k], e.id)
    ensures r.Err? ==> r.error == ValueError("Entity '" + EntityText(e) + "' not found on board.")
    ensures r.Ok? ==> var c := CoordinateOfEntity(b, e.id).value;
      var left := RemoveEntity(b.tiles[c], e.id).value;
      && (forall k :: k != c ==> TileAt(r.value, k) == TileAt(b, k))
      && TileAt(r.value, c).entities == left
      && (c in r.value.tiles <==> |left| > 0)
  {
    match CoordinateOfEntity(b, e.id)
    case None => Err(ValueError("Entity '" + EntityText(e) + "' not found on board."))
    case Some(c) =>
      var left := RemoveEntity(b.tiles[c], e.id).value;
      if |left| == 0 then Ok(Delete(b, c)) else Ok(Put(b, c, left))
  }

  /** Board.place: store an empty tile first if the key is absent, then append; with to_test
      the entity's location is left alone. The location is written before the append, so a
      refused append still leaves the entity naming the tile, and the empty tile stored. The
      result carries the board and the entity as the call leaves them. */
  function Place(b: Board, e: Entity, c: Coordinate, toTest: bool): (r: Outcome<(Board, Entity)>)
    ensures c in r.state.0.tiles
    ensures r.raised.Some? <==> CanAdd(TileAt(b, c).entities, e).Fail?
    ensures r.raised.None? ==> r.state.0.tiles[c] == TileAt(b, c).entities + [r.state.1]
    ensures r.raised.Some? ==> r.state.0.tiles[c] == TileAt(b, c).entities
    ensures forall k :: k != c ==> TileAt(r.state.0, k) == TileAt(b, k)
    ensures toTest ==> r.state.1 == e
    ensures !toTest ==> r.state.1 == e.(location := OnTile(c))
  {
    var stored := if c in b.tiles then b else Put(b, c, []);
    var moved := if toTest then e else e.(location := OnTile(c));
    assert TileAt(stored, c).entities == TileAt(b, c).entities;
    match TileAppend(stored, c, moved, !toTest)
    case Err(err) => Outcome((stored, moved), Some(err))
    case Ok(placed) => Outcome((placed, moved), None)
  }

  /** Board.copy: a new board named "main" with a tile per key, in the same order, holding
      the same entities (their locations are not touched). */
  method Copy(b: Board) returns (r: Board)
    requires b.Valid()
    ensures r == Board("main", b.keys, b.tiles)
  {
    r := EmptyBoard;
    for i := 0 to |b.keys|
      invariant r.name == "main"
      invariant r.keys == b.keys[..i]
      invariant r.tiles.Keys == set k | k in b.keys[..i]
      invariant forall k :: k in r.tiles ==> r.tiles[k] == b.tiles[k]
    {
      assert b.keys[i] !in b.keys[..i];
      assert b.keys[..i + 1] == b.keys[..i] + [b.keys[i]];
      r := Put(r, b.keys[i], b.tiles[b.keys[i]]);
    }
    assert b.keys[..|b.keys|] == b.keys;
    assert r.tiles.Keys == b.tiles.Keys;
  }

  // ---------------------------------------------------------------------------------------
  // Board queries

  /** Board.where: the `where` of every tile, concatenated in board order. */
  function BoardWhere(b: Board, t: EntityType, createdBy: Option<PlayerId>, owner: Option<PlayerId>, layer: Option<Layer>): (r: seq<Entity>)
    ensures forall x :: x in r ==> MatchesAll(x, Filter(Some(t), createdBy, owner, layer))
  {
    WhereOverMembers(b, b.keys, Filter(Some(t), createdBy, owner, layer));
    WhereOver(b, b.keys, Filter(Some(t), createdBy, owner, layer))
  }

  function WhereOver(b: Board, keys: seq<Coordinate>, f: Filter): seq<Entity> {
    if |keys| == 0 then [] else Selected(TileAt(b, keys[0]).entities, f) + WhereOver(b, keys[1..], f)
  }

  lemma {:induction false} WhereOverMembers(b: Board, keys: seq<Coordinate>, f: Filter)
    ensures forall e :: e in WhereOver(b, keys, f) <==>
      MatchesAll(e, f) && exists k :: k in keys && e in TileAt(b, k).entities
    decreases |keys|
  {
    if |keys| > 0 {
      WhereOverMembers(b, keys[1..], f);
      SelectedMembers(TileAt(b, keys[0]).entities, f);
      assert forall k :: k in keys <==> k == keys[0] || k in keys[1..];
    }
  }

  /** Board.where finds exactly the entities on stored tiles that pass the filter. */
  lemma BoardWhereMembers(b: Board, t: EntityType, createdBy: Option<PlayerId>, owner: Option<PlayerId>, layer: Option<Layer>)
    ensures forall e :: e in BoardWhere(b, t, createdBy, owner, layer) <==>
      MatchesAll(e, Filter(Some(t), createdBy, owner, layer)) && exists k :: k in b.keys && e in TileAt(b, k).entities
  {
    WhereOverMembers(b, b.keys, Filter(Some(t), createdBy, owner, layer));
  }

  /** Board.citadels. */
  function Citadels(b: Board): (r: seq<Entity>)
    ensures forall x :: x in r <==> x.kind == Citadel && exists k :: k in b.keys && x in TileAt(b, k).entities
  {
    BoardWhereMembers(b, OfKind(Citadel), None, None, None);
    BoardWhere(b, OfKind(Citadel), None, None, None)
  }

  /** Board.find_tiles: a tile is listed once per matching entity on it, in board order. */
  function FindTiles(b: Board, t: EntityType, createdBy: Option<PlayerId>, layer: Option<Layer>): (r: seq<Tile>)
    ensures |r| == |BoardWhere(b, t, createdBy, None, layer)|
  {
    FindTilesCountsMatches(b, b.keys, t, createdBy, layer);
    FindOver(b, b.keys, t, createdBy, layer)
  }

  function FindOver(b: Board, keys: seq<Coordinate>, t: EntityType, createdBy: Option<PlayerId>, layer: Option<Layer>): seq<Tile> {
    if |keys| == 0 then []
    else
      var here := Selected(TileAt(b, keys[0]).entities, Filter(Some(t), createdBy, None, layer));
      seq(|here|, _ => TileAt(b, keys[0])) + FindOver(b, keys[1..], t, createdBy, layer)
  }

  /** find_tiles lists each tile as often as `where` finds matching entities on it, so the
      two have the same length. */
  lemma {:induction false} FindTilesCountsMatches(b: Board, keys: seq<Coordinate>, t: EntityType, createdBy: Option<PlayerId>, layer: Option<Layer>)
    ensures |FindOver(b, keys, t, createdBy, layer)| == |WhereOver(b, keys, Filter(Some(t), createdBy, None, layer))|
    decreases |keys|
  {
    if |keys| > 0 {
      FindTilesCountsMatches(b, keys[1..], t, createdBy, layer);
    }
  }

  /** The first tile find_tiles lists is a stored tile holding the first entity `where`
      finds. */
  lemma {:induction false} FindTilesFirst(b: Board, keys: seq<Coordinate>, t: EntityType, createdBy: Option<PlayerId>, layer: Option<Layer>)
    requires |WhereOver(b, keys, Filter(Some(t), createdBy, None, layer))| > 0
    ensures |FindOver(b, keys, t, createdBy, layer)| > 0
    ensures FindOver(b, keys, t, createdBy, layer)[0].coordinate in keys
    ensures WhereOver(b, keys, Filter(Some(t), createdBy, None, layer))[0] in FindOver(b, keys, t, createdBy, layer)[0].entities
    decreases |keys|
  {
    FindTilesCountsMatches(b, keys, t, createdBy, layer);
    var f := Filter(Some(t), createdBy, None, layer);
    var here := Selected(TileAt(b, keys[0]).entities, f);
    if |here| > 0 {
      SelectedMembers(TileAt(b, keys[0]).entities, f);
      assert here[0] in here;
    } else {
      FindTilesFirst(b, keys[1..], t, createdBy, layer);
    }
  }

  /** Board.extents: the smallest and largest x and y over the stored keys, or all zero on an
      empty board. */
  method Extents(b: Board) returns (r: Rectangle)
    ensures |b.keys| == 0 ==> r == Rectangle(0, 0, 0, 0)
    ensures forall k :: k in b.keys ==> r.xMin <= k.x <= r.xMax && r.yMin <= k.y <= r.yMax
    ensures |b.keys| > 0 ==> (exists k :: k in b.keys && k.x == r.xMin) && (exists k :: k in b.keys && k.x == r.xMax)
    ensures |b.keys| > 0 ==> (exists k :: k in b.keys && k.y == r.yMin) && (exists k :: k in b.keys && k.y == r.yMax)
  {
    var minX: Option<int>, maxX: Option<int>, minY: Option<int>, maxY: Option<int> := None, None, None, None;
    for i := 0 to |b.keys|
      invariant minX.None? <==> i == 0
      invariant maxX.None? <==> i == 0
      invariant minY.None? <==> i == 0
      invariant maxY.None? <==> i == 0
      invariant i > 0 ==> forall k :: k in b.keys[..i] ==>
        minX.value <= k.x <= maxX.value && minY.value <= k.y <= maxY.value
      invariant i > 0 ==> (exists k :: k in b.keys[..i] && k.x == minX.value) && (exists k :: k in b.keys[..i] && k.x == maxX.value)
      invariant i > 0 ==> (exists k :: k in b.keys[..i] && k.y == minY.value) && (exists k :: k in b.keys[..i] && k.y == maxY.value)
    {
      var k := b.keys[i];
      assert b.keys[..i + 1] == b.keys[..i] + [k];
      if minX.None? || k.x < minX.value { minX := Some(k.x); }
      if maxX.None? || k.x > maxX.value { maxX := Some(k.x); }
      if minY.None? || k.y < minY.value { minY := Some(k.y); }
      if maxY.None? || k.y > maxY.value { maxY := Some(k.y); }
    }
    assert b.keys[..|b.keys|] == b.keys;
    r := Rectangle(OrZero(minX), OrZero(maxX), OrZero(minY), OrZero(maxY));
  }

  /** `value or 0`. */
  function OrZero(v: Option<int>): int { if v.Some? then v.value else 0 }

  // ---------------------------------------------------------------------------------------
  // Vectors

  datatype Vector = Vector(start: Coordinate, end: Coordinate)
  {
    predicate IsStraight() { start.x == end.x || start.y == end.y }
    predicate IsDiagonal() { Abs(start.x - end.x) == Abs(start.y - end.y) }
  }

  /** Among the eight neighbours, straight vectors are exactly the orthogonal steps and
      diagonal vectors the diagonal steps; only the zero vector is both. */
  lemma VectorGeometry(c: Coordinate, d: Coordinate)
    ensures d in Neighbours(c) ==>
      (Vector(c, d).IsStraight() <==> IsOrthogonalStep(c, d)) && (Vector(c, d).IsDiagonal() <==> IsDiagonalStep(c, d))
    ensures Vector(c, d).IsStraight() && Vector(c, d).IsDiagonal() <==> c == d
  {
    NeighboursAreKingSteps(c, d);
  }

  /** Entity.get_vector_to: ValueError when the entity is not on the target's board. */
  function VectorTo(e: Entity, target: Tile): (r: Result<Vector>)
    ensures r.Err? <==> !IsOnBoard(e)
    ensures r.Ok? ==> r.value == Vector(e.location.at, target.coordinate)
  {
    if !IsOnBoard(e) then
      Err(ValueError("Cannot get vector from " + EntityText(e) + " to " + TileText(target) + ": not on the same board."))
    else Ok(Vector(e.location.at, target.coordinate))
  }

  // ---------------------------------------------------------------------------------------
  // JSON

  /** Tile.to_json. */
  datatype TileJson = TileJson(name: string, coordinate: string, entities: seq<EntityJson>)

  /** Board.to_json: the name, and the tiles keyed by "x,y" in board order. */
  datatype BoardJson = BoardJson(name: string, tiles: seq<(string, TileJson)>)

  function TileToJson(b: Board, c: Coordinate): TileJson {
    TileJson(b.name + CoordinateText(c), CoordinateToJson(c), EntitiesToJson(TileAt(b, c).entities))
  }

  function BoardToJson(b: Board): (j: BoardJson)
    ensures j.name == b.name && |j.tiles| == |b.keys|
    ensures forall i :: 0 <= i < |b.keys| ==> j.tiles[i] == (CoordinateToJson(b.keys[i]), TileToJson(b, b.keys[i]))
  {
    BoardJson(b.name, seq(|b.keys|, i requires 0 <= i < |b.keys| => (CoordinateToJson(b.keys[i]), TileToJson(b, b.keys[i]))))
  }
}
