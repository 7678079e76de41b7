/** citadel/player.py: what a player may place, the selection quotas and the two choices that
    fill them, the placed lands and citadels, citadel adjacency, and how the arguments of an
    action are resolved to a tile and an entity. A player is its seat number. */
module Players {
  import opened Util
  import opened Entities
  import opened Boards
  import opened Games
  import opened Coherence

  // ---------------------------------------------------------------------------------------
  // Placeable entities and the quotas

  /** Player.placeable_entities: the personal stash followed by the community pool. */
  function PlaceableEntities(s: State, p: PlayerId): (r: seq<Entity>)
    ensures |r| == |Holding(s, PersonalStash(p))| + |s.pool|
  {
    Holding(s, PersonalStash(p)) + s.pool
  }

  /** `entity in player.placeable_entities`: Python's `in` compares entities by identity. */
  predicate MayPlace(s: State, p: PlayerId, e: Entity) {
    ContainsId(PlaceableEntities(s, p), e.id)
  }

  /** An entity is placeable exactly when it is in the player's own stash or in the pool. */
  lemma MayPlaceIff(s: State, p: PlayerId, e: Entity)
    ensures MayPlace(s, p, e) <==> ContainsId(Holding(s, PersonalStash(p)), e.id) || ContainsId(s.pool, e.id)
  {
    var a: seq<Entity>, b: seq<Entity> := Holding(s, PersonalStash(p)), s.pool;
    if ContainsId(a + b, e.id) {
      var i :| 0 <= i < |a + b| && (a + b)[i].id == e.id;
      if i >= |a| { assert b[i - |a|].id == e.id; }
    }
    if ContainsId(b, e.id) {
      var i :| 0 <= i < |b| && b[i].id == e.id;
      assert (a + b)[i + |a|].id == e.id;
    }
    if ContainsId(a, e.id) {
      var i :| 0 <= i < |a| && a[i].id == e.id;
      assert (a + b)[i].id == e.id;
    }
  }

  /** Player.community_entities: the pieces of the pool this player chose. */
  function CommunityEntities(s: State, p: PlayerId): seq<Entity> {
    Selected(s.pool, Filter(Some(AnyPiece), Some(p), None, None))
  }

  /** The pieces of the player's stash (Land and Citadel are not pieces). */
  function PersonalPieces(s: State, p: PlayerId): seq<Entity> {
    Selected(Holding(s, PersonalStash(p)), OfType(AnyPiece))
  }

  predicate IsDoneChoosingPersonalPieces(s: State, p: PlayerId) {
    |PersonalPieces(s, p)| >= s.personalPerPlayer
  }

  /** `community_entities.where(Piece)` filters what is already filtered. */
  predicate IsDoneChoosingCommunityPieces(s: State, p: PlayerId) {
    |Selected(CommunityEntities(s, p), OfType(AnyPiece))| >= s.communityPerPlayer
  }

  predicate IsDoneChoosingPieces(s: State, p: PlayerId) {
    IsDoneChoosingPersonalPieces(s, p) && IsDoneChoosingCommunityPieces(s, p)
  }

  lemma {:induction false} SelectedTwice(items: seq<Entity>, f: Filter, g: Filter)
    requires forall e :: MatchesAll(e, f) ==> MatchesAll(e, g)
    ensures Selected(Selected(items, f), g) == Selected(items, f)
    decreases |items|
  {
    var sel := Selected(items, f);
    SelectedMembers(items, f);
    assert forall i :: 0 <= i < |sel| ==> sel[i] in sel;
    SelectedEverything(sel, g);
  }

  /** The community quota counts the pieces the player put in the pool. */
  lemma CommunityQuota(s: State, p: PlayerId)
    ensures IsDoneChoosingCommunityPieces(s, p) <==> |CommunityEntities(s, p)| >= s.communityPerPlayer
  {
    SelectedTwice(s.pool, Filter(Some(AnyPiece), Some(p), None, None), OfType(AnyPiece));
  }

  // ---------------------------------------------------------------------------------------
  // Choosing pieces

  /** The record of a piece chosen now: a new entity with the next id. */
  function Chosen(s: State, k: Kind, p: PlayerId, owner: Option<PlayerId>, into: Location): Entity {
    Entity(s.nextId, k, Some(p), owner, into)
  }

  /** Player.choose_community_piece with a class: ValueError once the quota is reached;
      otherwise a new entity created by the player and without owner goes last in the pool. */
  function ChooseCommunityPiece(s: State, p: PlayerId, k: Kind): (r: Result<State>)
    requires p < s.PlayerCount()
    ensures r.Err? <==> |CommunityEntities(s, p)| >= s.communityPerPlayer
    ensures r.Err? ==> r.error == ValueError("Players are not allowed " + "to choose more than "
      + IntToString(s.communityPerPlayer) + (" pieces for the " + "community pool. '") + PlayerName(p)
      + "' has already chosen " + IntToString(|CommunityEntities(s, p)|) + " community pieces.")
    ensures r.Ok? ==> r.value == s.(pool := s.pool + [Chosen(s, k, p, None, CommunityPool)], nextId := s.nextId + 1)
  {
    CommunityQuota(s, p);
    if IsDoneChoosingCommunityPieces(s, p) then
      Err(ValueError("Players are not allowed " + "to choose more than " + IntToString(s.communityPerPlayer)
        + (" pieces for the " + "community pool. '") + PlayerName(p) + "' has already chosen "
        + IntToString(|CommunityEntities(s, p)|) + " community pieces."))
    else
      Ok(s.(pool := Append(s.pool, Entity(s.nextId, k, Some(p), None, CommunityPool), CommunityPool, true),
            nextId := s.nextId + 1))
  }

  /** Player.choose_personal_piece with a class: ValueError once the stash holds the quota of
      pieces; otherwise a new entity created and owned by the player goes last in the stash. */
  function ChoosePersonalPiece(s: State, p: PlayerId, k: Kind): (r: Result<State>)
    requires p < s.PlayerCount()
    ensures r.Err? <==> |PersonalPieces(s, p)| >= s.personalPerPlayer
    ensures r.Err? ==> r.error == ValueError("Players are not allowed " + "to choose more than "
      + IntToString(s.personalPerPlayer) + (" pieces for their " + "personal stash. '") + PlayerName(p)
      + "' has already chosen " + IntToString(|PersonalPieces(s, p)|) + " personal pieces.")
    ensures r.Ok? ==> r.value == s.(stashes := s.stashes[p := s.stashes[p] + [Chosen(s, k, p, Some(p), PersonalStash(p))]],
      nextId := s.nextId + 1)
  {
    if IsDoneChoosingPersonalPieces(s, p) then
      Err(ValueError("Players are not allowed " + "to choose more than " + IntToString(s.personalPerPlayer)
        + (" pieces for their " + "personal stash. '") + PlayerName(p) + "' has already chosen "
        + IntToString(|PersonalPieces(s, p)|) + " personal pieces."))
    else
      var piece := Entity(s.nextId, k, Some(p), Some(p), PersonalStash(p));
      Ok(s.(stashes := s.stashes[p := Append(s.stashes[p], piece, PersonalStash(p), true)], nextId := s.nextId + 1))
  }

  /** A community choice counts towards the chooser's quota when it is a piece, and towards
      nobody else's. */
  lemma CommunityChoiceCounts(s: State, p: PlayerId, k: Kind, q: PlayerId)
    requires p < s.PlayerCount() && ChooseCommunityPiece(s, p, k).Ok?
    ensures |CommunityEntities(ChooseCommunityPiece(s, p, k).value, q)|
      == |CommunityEntities(s, q)| + if q == p && k.IsPiece() then 1 else 0
  {
    var x := Chosen(s, k, p, None, CommunityPool);
    SelectedConcat(s.pool, [x], Filter(Some(AnyPiece), Some(q), None, None));
    assert Selected([x], Filter(Some(AnyPiece), Some(q), None, None))
      == Selected([], Filter(Some(AnyPiece), Some(q), None, None)) + (if q == p && k.IsPiece() then [x] else []);
  }

  /** A personal choice counts towards the chooser's quota when it is a piece. */
  lemma PersonalChoiceCounts(s: State, p: PlayerId, k: Kind, q: PlayerId)
    requires p < s.PlayerCount() && ChoosePersonalPiece(s, p, k).Ok?
    ensures |PersonalPieces(ChoosePersonalPiece(s, p, k).value, q)|
      == |PersonalPieces(s, q)| + if q == p && k.IsPiece() then 1 else 0
  {
    var x := Chosen(s, k, p, Some(p), PersonalStash(p));
    if q == p {
      SelectedConcat(s.stashes[p], [x], OfType(AnyPiece));
      assert Selected([x], OfType(AnyPiece)) == Selected([], OfType(AnyPiece)) + (if k.IsPiece() then [x] else []);
    } else {
      assert Holding(ChoosePersonalPiece(s, p, k).value, PersonalStash(q)) == Holding(s, PersonalStash(q));
    }
  }

  /** Appending a new record, with the id handed out now, to a stash or the pool keeps the
      invariant; the board is untouched. */
  lemma ChosenKeeps(s: State, x: Entity)
    requires Coherent(s) && x.id == s.nextId
    requires x.location == CommunityPool || (x.location.PersonalStash? && x.location.player < s.PlayerCount())
    requires SeatedIn(x.owner, s.PlayerCount()) && SeatedIn(x.createdBy, s.PlayerCount())
    ensures Coherent(Store(s.(nextId := s.nextId + 1), x.location, Holding(s, x.location) + [x]))
  {
    var t := s.(nextId := s.nextId + 1);
    assert forall l :: Holding(t, l) == Holding(s, l);
    assert Structure(t);
    AddFresh(t, x);
    var u := Store(t, x.location, Holding(t, x.location) + [x]);
    assert u.board == s.board;
    assert forall c :: Holding(u, OnTile(c)) == Holding(s, OnTile(c));
  }

  /** Both choices keep the invariant. */
  lemma ChoicesKeep(s: State, p: PlayerId, k: Kind)
    requires Coherent(s) && p < s.PlayerCount()
    ensures ChooseCommunityPiece(s, p, k).Ok? ==> Coherent(ChooseCommunityPiece(s, p, k).value)
    ensures ChoosePersonalPiece(s, p, k).Ok? ==> Coherent(ChoosePersonalPiece(s, p, k).value)
  {
    var t := s.(nextId := s.nextId + 1);
    if ChooseCommunityPiece(s, p, k).Ok? {
      var x := Chosen(s, k, p, None, CommunityPool);
      ChosenKeeps(s, x);
      assert Store(t, CommunityPool, Holding(s, CommunityPool) + [x]) == ChooseCommunityPiece(s, p, k).value;
    }
    if ChoosePersonalPiece(s, p, k).Ok? {
      var y := Chosen(s, k, p, Some(p), PersonalStash(p));
      ChosenKeeps(s, y);
      assert Store(t, PersonalStash(p), Holding(s, PersonalStash(p)) + [y]) == ChoosePersonalPiece(s, p, k).value;
    }
  }

  // ---------------------------------------------------------------------------------------
  // Lands and citadels on the board

  /** The Land of a stored tile, as Tile.land finds it, when this player created it. */
  function OwnLand(b: Board, c: Coordinate, p: PlayerId): seq<Entity> {
    OwnLandOf(TileAt(b, c).entities, p)
  }

  function LandsOver(b: Board, keys: seq<Coordinate>, p: PlayerId): seq<Entity> {
    if |keys| == 0 then [] else OwnLand(b, keys[0], p) + LandsOver(b, keys[1..], p)
  }

  /** Player.land_tiles read without side effects: the Land of each tile, in board order,
      that this player created. */
  function LandTiles(s: State, p: PlayerId): (r: seq<Entity>)
    ensures forall x :: x in r ==>
      x.kind == Land && x.createdBy == Some(p) && exists k :: k in s.board.keys && x in TileAt(s.board, k).entities
  {
    LandsOverMembers(s.board, s.board.keys, p);
    LandsOver(s.board, s.board.keys, p)
  }

  lemma {:induction false} LandsOverSnoc(b: Board, keys: seq<Coordinate>, c: Coordinate, p: PlayerId)
    ensures LandsOver(b, keys + [c], p) == LandsOver(b, keys, p) + OwnLand(b, c, p)
    decreases |keys|
  {
    if |keys| == 0 {
      assert LandsOver(b, [c], p) == OwnLand(b, c, p) + LandsOver(b, [], p);
    } else {
      assert (keys + [c])[1..] == keys[1..] + [c];
      LandsOverSnoc(b, keys[1..], c, p);
    }
  }

  /** Tile.land on a tile that grew by one entity. */
  lemma {:induction false} FirstOfKindSnoc(items: seq<Entity>, x: Entity, k: Kind)
    ensures FirstOfKind(items + [x], k) ==
      if FirstOfKind(items, k).Some? then FirstOfKind(items, k) else if x.kind == k then Some(x) else None
    decreases |items|
  {
    if |items| > 0 {
      assert (items + [x])[1..] == items[1..] + [x];
      FirstOfKindSnoc(items[1..], x, k);
    }
  }

  /** A tile with distinct layers holds at most one Land, so `where(Land, player)` on it finds
      one exactly when its Land was created by the player. */
  lemma {:induction false} OneLandPerTile(items: seq<Entity>, p: PlayerId)
    requires DistinctLayers(items)
    ensures |Selected(items, Filter(Some(OfKind(Land)), Some(p), None, None))|
      == if FirstOfKind(items, Land).Some? && FirstOfKind(items, Land).value.createdBy == Some(p) then 1 else 0
    decreases |items|
  {
    var f := Filter(Some(OfKind(Land)), Some(p), None, None);
    if |items| > 0 {
      var init := items[..|items| - 1];
      var last := items[|items| - 1];
      assert items == init + [last];
      FirstOfKindSnoc(init, last, Land);
      OneLandPerTile(init, p);
      if last.kind == Land {
        forall i | 0 <= i < |init| ensures init[i].kind != Land {
          assert items[i].LayerOf() != items[|items| - 1].LayerOf();
        }
        SelectedMembers(init, f);
        assert Selected(init, f) == [];
      }
    }
  }

  lemma {:induction false} LandsOverCount(b: Board, keys: seq<Coordinate>, p: PlayerId)
    requires forall c :: c in b.tiles ==> DistinctLayers(b.tiles[c])
    ensures |LandsOver(b, keys, p)| == |WhereOver(b, keys, Filter(Some(OfKind(Land)), Some(p), None, None))|
    decreases |keys|
  {
    if |keys| > 0 {
      OneLandPerTile(TileAt(b, keys[0]).entities, p);
      LandsOverCount(b, keys[1..], p);
    }
  }

  /** Counting the tiles whose Land the player created is counting the player's Lands on the
      board, because a layered tile holds one Land at most; and each of them is such a Land. */
  lemma LandTilesAreBoardLands(s: State, p: PlayerId)
    requires forall c :: c in s.board.tiles ==> DistinctLayers(s.board.tiles[c])
    ensures |LandTiles(s, p)| == |BoardWhere(s.board, OfKind(Land), Some(p), None, None)|
    ensures forall x :: x in LandTiles(s, p) ==> x in BoardWhere(s.board, OfKind(Land), Some(p), None, None)
  {
    LandsOverCount(s.board, s.board.keys, p);
    LandsOverMembers(s.board, s.board.keys, p);
    BoardWhereMembers(s.board, OfKind(Land), Some(p), None, None);
  }

  lemma {:induction false} LandsOverMembers(b: Board, keys: seq<Coordinate>, p: PlayerId)
    ensures forall x :: x in LandsOver(b, keys, p) ==>
      x.kind == Land && x.createdBy == Some(p) && exists k :: k in keys && x in TileAt(b, k).entities
    decreases |keys|
  {
    if |keys| > 0 {
      LandsOverMembers(b, keys[1..], p);
      var land := FirstOfKind(TileAt(b, keys[0]).entities, Land);
      if land.Some? {
        var j :| 0 <= j < |TileAt(b, keys[0]).entities| && TileAt(b, keys[0]).entities[j] == land.value;
        assert land.value in TileAt(b, keys[0]).entities;
      }
      assert forall k :: k in keys[1..] ==> k in keys;
    }
  }

  lemma {:induction false} LandsOverWitness(b: Board, keys: seq<Coordinate>, p: PlayerId)
    requires |LandsOver(b, keys, p)| > 0
    ensures exists k :: k in keys && OwnLand(b, k, p) != []
    decreases |keys|
  {
    if OwnLand(b, keys[0], p) == [] {
      LandsOverWitness(b, keys[1..], p);
      var k :| k in keys[1..] && OwnLand(b, k, p) != [];
      assert k in keys;
    }
  }

  /** Each Land land_tiles returns is the record the board holds, where it is. */
  lemma LandTilesAreHeld(s: State, p: PlayerId)
    requires Structure(s)
    ensures forall x :: x in LandTiles(s, p) ==> x.kind == Land && x.createdBy == Some(p) && x.location.OnTile? && Holds(s, x)
  {
    LandsOverMembers(s.board, s.board.keys, p);
    forall x | x in LandTiles(s, p) ensures x.location.OnTile? && Holds(s, x) {
      var k :| k in s.board.keys && x in TileAt(s.board, k).entities;
      var j :| 0 <= j < |Holding(s, OnTile(k))| && Holding(s, OnTile(k))[j] == x;
    }
  }

  // Player.land_tiles as the source runs it. `player_lands.append(tile.land)` keeps the default
  // reset_location=True, so every Land it collects has its location switched to the throwaway
  // list. The Land stays on its tile while its location no longer names the tile.

  /** A tile after land_tiles visited it: its Land, when this player created it, now names
      the throwaway list as its location. */
  function Detached(items: seq<Entity>, p: PlayerId, tag: nat): (r: seq<Entity>)
    ensures |r| == |items|
  {
    if |items| == 0 then []
    else if items[0].kind == Land then
      (if items[0].createdBy == Some(p) then [items[0].(location := Unlisted(tag))] else [items[0]]) + items[1..]
    else [items[0]] + Detached(items[1..], p, tag)
  }

  /** The board after land_tiles visited every tile. */
  function DetachLands(b: Board, p: PlayerId, tag: nat): Board {
    b.(tiles := map c | c in b.tiles :: Detached(b.tiles[c], p, tag))
  }

  lemma {:induction false} DetachedFacts(items: seq<Entity>, p: PlayerId, tag: nat)
    ensures OwnLandOf(items, p) == [] ==> Detached(items, p, tag) == items
    ensures OwnLandOf(items, p) != [] ==>
      (exists j :: 0 <= j < |items| && Detached(items, p, tag)[j] == OwnLandOf(items, p)[0].(location := Unlisted(tag)))
    decreases |items|
  {
    if |items| > 0 && items[0].kind != Land {
      DetachedFacts(items[1..], p, tag);
      assert FirstOfKind(items, Land) == FirstOfKind(items[1..], Land);
      if OwnLandOf(items, p) != [] {
        var j :| 0 <= j < |items[1..]|
          && Detached(items[1..], p, tag)[j] == OwnLandOf(items, p)[0].(location := Unlisted(tag));
        assert Detached(items, p, tag)[j + 1] == Detached(items[1..], p, tag)[j];
      }
    } else if |items| > 0 {
      assert items == [items[0]] + items[1..];
      assert FirstOfKind(items, Land) == Some(items[0]);
      if items[0].createdBy == Some(p) {
        assert Detached(items, p, tag)[0] == items[0].(location := Unlisted(tag));
      }
    }
  }

  function OwnLandOf(items: seq<Entity>, p: PlayerId): seq<Entity> {
    var land := FirstOfKind(items, Land);
    if land.Some? && land.value.createdBy == Some(p) then [land.value] else []
  }

  lemma RelocateConcat(a: seq<Entity>, b: seq<Entity>, into: Location)
    ensures Relocate(a + b, into) == Relocate(a, into) + Relocate(b, into)
  {
    assert forall i :: 0 <= i < |a + b| ==> Relocate(a + b, into)[i] == (Relocate(a, into) + Relocate(b, into))[i];
  }

  /** The tiles once land_tiles has visited the keys in `done`. */
  function Partly(b: Board, done: seq<Coordinate>, p: PlayerId, tag: nat): map<Coordinate, seq<Entity>> {
    map c | c in b.tiles :: if c in done then Detached(b.tiles[c], p, tag) else b.tiles[c]
  }

  lemma PartlyStep(b: Board, done: seq<Coordinate>, c: Coordinate, p: PlayerId, tag: nat)
    requires c in b.tiles && c !in done
    ensures Partly(b, done + [c], p, tag) == Partly(b, done, p, tag)[c := Detached(b.tiles[c], p, tag)]
    ensures OwnLandOf(b.tiles[c], p) == [] ==> Partly(b, done + [c], p, tag) == Partly(b, done, p, tag)
  {
    DetachedFacts(b.tiles[c], p, tag);
  }

  lemma PartlyAll(b: Board, p: PlayerId, tag: nat)
    requires b.Valid()
    ensures Partly(b, [], p, tag) == b.tiles
    ensures Partly(b, b.keys, p, tag) == DetachLands(b, p, tag).tiles
  {
  }

  /** What visiting the next key adds to the lands collected. */
  lemma VisitCollects(b: Board, i: nat, p: PlayerId, tag: nat)
    requires i < |b.keys|
    ensures var land := FirstOfKind(TileAt(b, b.keys[i]).entities, Land);
      Relocate(LandsOver(b, b.keys[..i + 1], p), Unlisted(tag))
      == Relocate(LandsOver(b, b.keys[..i], p), Unlisted(tag))
         + if land.Some? && land.value.createdBy == Some(p) then [land.value.(location := Unlisted(tag))] else []
  {
    var c := b.keys[i];
    assert b.keys[..i + 1] == b.keys[..i] + [c];
    LandsOverSnoc(b, b.keys[..i], c, p);
    RelocateConcat(LandsOver(b, b.keys[..i], p), OwnLand(b, c, p), Unlisted(tag));
  }

  /** What visiting the next key changes on the tiles. */
  lemma VisitDetaches(b: Board, i: nat, p: PlayerId, tag: nat)
    requires b.Valid() && i < |b.keys|
    ensures b.keys[i] in b.tiles && Partly(b, b.keys[..i], p, tag)[b.keys[i]] == b.tiles[b.keys[i]]
    ensures var land := FirstOfKind(b.tiles[b.keys[i]], Land);
      Partly(b, b.keys[..i + 1], p, tag)
      == if land.Some? && land.value.createdBy == Some(p)
         then Partly(b, b.keys[..i], p, tag)[b.keys[i] := Detached(b.tiles[b.keys[i]], p, tag)]
         else Partly(b, b.keys[..i], p, tag)
  {
    var c := b.keys[i];
    assert b.keys[..i + 1] == b.keys[..i] + [c];
    assert c !in b.keys[..i];
    PartlyStep(b, b.keys[..i], c, p, tag);
  }

  /** One visit of land_tiles' loop keeps both the lands collected and the tiles in step with
      the keys visited so far. */
  lemma VisitStep(b: Board, i: nat, p: PlayerId, tag: nat, lands: seq<Entity>, tiles: map<Coordinate, seq<Entity>>)
    requires b.Valid() && i < |b.keys|
    requires lands == Relocate(LandsOver(b, b.keys[..i], p), Unlisted(tag))
    requires tiles == Partly(b, b.keys[..i], p, tag)
    ensures b.keys[i] in tiles
    ensures var c := b.keys[i]; var land := FirstOfKind(tiles[c], Land);
      var mine := land.Some? && land.value.createdBy == Some(p);
      (if mine then lands + [land.value.(location := Unlisted(tag))] else lands)
        == Relocate(LandsOver(b, b.keys[..i + 1], p), Unlisted(tag))
      && (if mine then tiles[c := Detached(tiles[c], p, tag)] else tiles)
        == Partly(b, b.keys[..i + 1], p, tag)
  {
    VisitCollects(b, i, p, tag);
    VisitDetaches(b, i, p, tag);
  }

  /** The lands collected and the tiles left once land_tiles has visited the first `i` keys. */
  datatype Visit = Visit(lands: seq<Entity>, tiles: map<Coordinate, seq<Entity>>)

  function Visited(b: Board, i: nat, p: PlayerId, tag: nat): Visit
    requires b.Valid() && i <= |b.keys|
  {
    if i == 0 then Visit([], b.tiles)
    else
      var v := Visited(b, i - 1, p, tag);
      var c := b.keys[i - 1];
      if c !in v.tiles then v
      else
        var land := FirstOfKind(v.tiles[c], Land);
        if land.Some? && land.value.createdBy == Some(p) then
          Visit(v.lands + [land.value.(location := Unlisted(tag))], v.tiles[c := Detached(v.tiles[c], p, tag)])
        else v
  }

  lemma {:induction false} VisitedMeans(b: Board, i: nat, p: PlayerId, tag: nat)
    requires b.Valid() && i <= |b.keys|
    ensures Visited(b, i, p, tag)
      == Visit(Relocate(LandsOver(b, b.keys[..i], p), Unlisted(tag)), Partly(b, b.keys[..i], p, tag))
  {
    if i == 0 {
      assert b.keys[..0] == [];
      PartlyAll(b, p, tag);
    } else {
      VisitedMeans(b, i - 1, p, tag);
      var v := Visited(b, i - 1, p, tag);
      VisitStep(b, i - 1, p, tag, v.lands, v.tiles);
    }
  }

  lemma VisitedNext(b: Board, i: nat, p: PlayerId, tag: nat, lands: seq<Entity>, tiles: map<Coordinate, seq<Entity>>)
    requires b.Valid() && i < |b.keys| && Visit(lands, tiles) == Visited(b, i, p, tag)
    requires forall c :: c in tiles <==> c in b.tiles
    ensures b.keys[i] in tiles
    ensures var c := b.keys[i]; var land := FirstOfKind(tiles[c], Land);
      (if land.Some? && land.value.createdBy == Some(p)
       then Visit(lands + [land.value.(location := Unlisted(tag))], tiles[c := Detached(tiles[c], p, tag)])
       else Visit(lands, tiles))
      == Visited(b, i + 1, p, tag)
  {
  }

  /** land_tiles as written: it returns the player's Lands, relocated to the new list, and
      leaves every such Land on its tile with that list as its location. */
  method LandTilesAsWritten(s: State, p: PlayerId, tag: nat) returns (lands: seq<Entity>, after: State)
    requires s.board.Valid()
    ensures lands == Relocate(LandTiles(s, p), Unlisted(tag))
    ensures after == s.(board := DetachLands(s.board, p, tag))
  {
    var keys := s.board.keys;
    var tiles := s.board.tiles;
    lands := [];
    var i := 0;
    while i < |keys|
      invariant 0 <= i <= |keys|
      invariant Visit(lands, tiles) == Visited(s.board, i, p, tag)
      invariant forall c :: c in tiles <==> c in s.board.tiles
    {
      var c := keys[i];
      VisitedNext(s.board, i, p, tag, lands, tiles);
      var land := FirstOfKind(tiles[c], Land);
      if land.Some? && land.value.createdBy == Some(p) {
        lands := lands + [land.value.(location := Unlisted(tag))];
        tiles := tiles[c := Detached(tiles[c], p, tag)];
      }
      i := i + 1;
    }
    VisitedMeans(s.board, i, p, tag);
    assert keys[..i] == keys;
    PartlyAll(s.board, p, tag);
    after := s.(board := s.board.(tiles := tiles));
  }

  /** Asking for a player's land tiles, once that player has placed a Land, leaves a record on
      the board whose location is not its tile. */
  lemma LandTilesAsWrittenBreaksLocation(s: State, p: PlayerId, tag: nat)
    requires Structure(s) && |LandTiles(s, p)| > 0
    ensures !Located(s.(board := DetachLands(s.board, p, tag)))
  {
    var t := s.(board := DetachLands(s.board, p, tag));
    LandsOverWitness(s.board, s.board.keys, p);
    var k :| k in s.board.keys && OwnLand(s.board, k, p) != [];
    DetachedFacts(s.board.tiles[k], p, tag);
    var j :| 0 <= j < |s.board.tiles[k]|
      && Detached(s.board.tiles[k], p, tag)[j] == OwnLandOf(s.board.tiles[k], p)[0].(location := Unlisted(tag));
    assert Holding(t, OnTile(k))[j].location != OnTile(k);
  }

  // ---------------------------------------------------------------------------------------
  // What land_tiles' side effect leaves alone: it rewrites a location, never a kind, a
  // creator or an owner, so every later count of lands or citadels comes out the same.

  /** After a visit, each entity of the tile is the one before, or the same Land with another
      location. */
  lemma {:induction false} DetachedPointwise(items: seq<Entity>, p: PlayerId, tag: nat)
    ensures forall i :: 0 <= i < |items| ==>
      (Detached(items, p, tag)[i] == items[i]
       || (items[i].kind == Land && Detached(items, p, tag)[i] == items[i].(location := Unlisted(tag))))
    decreases |items|
  {
    if |items| > 0 && items[0].kind != Land {
      DetachedPointwise(items[1..], p, tag);
      assert forall i :: 1 <= i < |items| ==> Detached(items, p, tag)[i] == Detached(items[1..], p, tag)[i - 1];
    }
  }

  /** A visit leaves Tile.land in place, made by the same player. */
  lemma {:induction false} DetachedKeepsLand(items: seq<Entity>, p: PlayerId, tag: nat)
    ensures FirstOfKind(Detached(items, p, tag), Land).Some? == FirstOfKind(items, Land).Some?
    ensures FirstOfKind(items, Land).Some? ==>
      FirstOfKind(Detached(items, p, tag), Land).value.createdBy == FirstOfKind(items, Land).value.createdBy
    decreases |items|
  {
    if |items| > 0 && items[0].kind != Land {
      DetachedKeepsLand(items[1..], p, tag);
      assert Detached(items, p, tag)[1..] == Detached(items[1..], p, tag);
    }
  }

  lemma {:induction false} DetachKeepsLandsOver(b: Board, keys: seq<Coordinate>, q: PlayerId, tag: nat, p: PlayerId)
    ensures |LandsOver(DetachLands(b, q, tag), keys, p)| == |LandsOver(b, keys, p)|
    decreases |keys|
  {
    if |keys| > 0 {
      DetachKeepsLandsOver(b, keys[1..], q, tag, p);
      if keys[0] in b.tiles {
        DetachedKeepsLand(b.tiles[keys[0]], q, tag);
      }
    }
  }

  /** `where` with a class other than Land cannot tell two lists apart that differ only in
      their Lands. */
  lemma {:induction false} SelectedIgnoresLands(a: seq<Entity>, b: seq<Entity>, f: Filter)
    requires |a| == |b| && f.entityType.Some? && !IsInstance(Land, f.entityType.value)
    requires forall i :: 0 <= i < |a| ==> a[i] == b[i] || (a[i].kind == Land && b[i].kind == Land)
    ensures Selected(a, f) == Selected(b, f)
    decreases |a|
  {
    if |a| > 0 {
      SelectedIgnoresLands(a[..|a| - 1], b[..|b| - 1], f);
    }
  }

  lemma {:induction false} DetachKeepsWhereOver(b: Board, keys: seq<Coordinate>, q: PlayerId, tag: nat, f: Filter)
    requires f.entityType.Some? && !IsInstance(Land, f.entityType.value)
    ensures WhereOver(DetachLands(b, q, tag), keys, f) == WhereOver(b, keys, f)
    decreases |keys|
  {
    if |keys| > 0 {
      DetachKeepsWhereOver(b, keys[1..], q, tag, f);
      if keys[0] in b.tiles {
        DetachedPointwise(b.tiles[keys[0]], q, tag);
        SelectedIgnoresLands(Detached(b.tiles[keys[0]], q, tag), b.tiles[keys[0]], f);
      }
    }
  }

  /** The board once land_tiles has run for seats 0 to n - 1 in turn, seat q's throwaway list
      being the one tagged tag + q. */
  function DetachSeats(b: Board, n: nat, tag: nat): Board
    decreases n
  {
    if n == 0 then b else DetachLands(DetachSeats(b, n - 1, tag), n - 1, tag + n - 1)
  }

  lemma DetachSeatsNext(b: Board, n: nat, tag: nat)
    ensures DetachSeats(b, n + 1, tag) == DetachLands(DetachSeats(b, n, tag), n, tag + n)
  {
  }

  /** land_tiles leaves the keys and the tiles stored as they were. */
  lemma DetachLandsValid(b: Board, q: PlayerId, tag: nat)
    requires b.Valid()
    ensures DetachLands(b, q, tag).Valid() && DetachLands(b, q, tag).keys == b.keys
  {
  }

  /** land_tiles for seat q, run on the board the seats before it left, gives the board
      of the next seat, a valid one. */
  lemma DetachSeatsStep(b: Board, q: nat, tag: nat, x: Board, y: Board)
    requires x == DetachSeats(b, q, tag) && x.Valid() && y == DetachLands(x, q, tag + q)
    ensures y == DetachSeats(b, q + 1, tag) && y.Valid()
  {
    DetachSeatsNext(b, q, tag);
    DetachLandsValid(x, q, tag + q);
  }

  lemma {:induction false} DetachSeatsKeys(b: Board, n: nat, tag: nat)
    ensures DetachSeats(b, n, tag).keys == b.keys
    decreases n
  {
    if n > 0 {
      DetachSeatsKeys(b, n - 1, tag);
    }
  }

  lemma {:induction false} DetachSeatsKeepLands(b: Board, n: nat, tag: nat, p: PlayerId, keys: seq<Coordinate>)
    ensures |LandsOver(DetachSeats(b, n, tag), keys, p)| == |LandsOver(b, keys, p)|
    decreases n
  {
    if n > 0 {
      DetachSeatsKeepLands(b, n - 1, tag, p, keys);
      DetachSeatKeepsLands(b, n, tag, p, keys);
    }
  }

  lemma {:induction false} DetachSeatKeepsLands(b: Board, n: nat, tag: nat, p: PlayerId, keys: seq<Coordinate>)
    requires n > 0
    ensures |LandsOver(DetachSeats(b, n, tag), keys, p)| == |LandsOver(DetachSeats(b, n - 1, tag), keys, p)|
  {
    DetachSeatsNext(b, n - 1, tag);
    LandsStep(DetachSeats(b, n - 1, tag), DetachSeats(b, n, tag), keys, n - 1, tag + n - 1, p);
  }

  /** One visit of land_tiles keeps every player's count of lands over any keys. */
  lemma LandsStep(x: Board, y: Board, keys: seq<Coordinate>, q: PlayerId, tag: nat, p: PlayerId)
    requires y == DetachLands(x, q, tag)
    ensures |LandsOver(y, keys, p)| == |LandsOver(x, keys, p)|
  {
    DetachKeepsLandsOver(x, keys, q, tag, p);
  }

  lemma {:induction false} DetachSeatsKeepWhere(b: Board, n: nat, tag: nat, f: Filter, keys: seq<Coordinate>)
    requires f.entityType.Some? && !IsInstance(Land, f.entityType.value)
    ensures WhereOver(DetachSeats(b, n, tag), keys, f) == WhereOver(b, keys, f)
    decreases n
  {
    if n > 0 {
      DetachSeatsKeepWhere(b, n - 1, tag, f, keys);
      DetachKeepsWhereOver(DetachSeats(b, n - 1, tag), keys, n - 1, tag + n - 1, f);
    }
  }

  /** Running land_tiles for any seats changes no player's count of lands and no player's
      citadels. */
  lemma DetachSeatsKeeps(s: State, n: nat, tag: nat, p: PlayerId)
    ensures |LandTiles(s.(board := DetachSeats(s.board, n, tag)), p)| == |LandTiles(s, p)|
    ensures PlayerCitadels(s.(board := DetachSeats(s.board, n, tag)), p) == PlayerCitadels(s, p)
  {
    var d := DetachSeats(s.board, n, tag);
    var f := Filter(Some(OfKind(Citadel)), None, Some(p), None);
    DetachSeatsKeys(s.board, n, tag);
    DetachSeatsKeepLands(s.board, n, tag, p, s.board.keys);
    DetachSeatsKeepWhere(s.board, n, tag, f, s.board.keys);
    assert LandTiles(s.(board := d), p) == LandsOver(d, s.board.keys, p);
    assert PlayerCitadels(s.(board := d), p) == WhereOver(d, s.board.keys, f);
  }

  /** Player.is_done_placing_lands. */
  predicate IsDonePlacingLands(s: State, p: PlayerId) {
    |LandTiles(s, p)| >= s.landsPerPlayer
  }

  /** is_done_placing_lands as written: the count goes through land_tiles, which relocates
      the player's Lands to its throwaway list. */
  method IsDonePlacingLandsAsWritten(s: State, p: PlayerId, tag: nat) returns (done: bool, after: State)
    requires s.board.Valid()
    ensures done == IsDonePlacingLands(s, p)
    ensures after == s.(board := after.board) && after.board == DetachLands(s.board, p, tag)
  {
    var lands;
    lands, after := LandTilesAsWritten(s, p, tag);
    done := |lands| >= s.landsPerPlayer;
  }

  /** Player.citadels: the citadels on the board the player owns. */
  function PlayerCitadels(s: State, p: PlayerId): (r: seq<Entity>)
    ensures forall x :: x in r <==>
      (x.kind == Citadel && x.owner == Some(p) && exists k :: k in s.board.keys && x in TileAt(s.board, k).entities)
  {
    BoardWhereMembers(s.board, OfKind(Citadel), None, Some(p), None);
    BoardWhere(s.board, OfKind(Citadel), None, Some(p), None)
  }

  predicate IsDonePlacingCitadels(s: State, p: PlayerId) {
    |PlayerCitadels(s, p)| >= s.citadelsPerPlayer
  }

  /** Player.is_adjacent_to_citadel for a coordinate or a tile: the coordinate is one of the
      eight around the tile of one of the player's citadels. */
  function IsAdjacentToCitadel(s: State, p: PlayerId, c: Coordinate): (r: bool)
    ensures Structure(s) ==>
      (r <==> exists x :: x in PlayerCitadels(s, p) && x.location.OnTile? && c in Neighbours(x.location.at))
  {
    CitadelsLocated(s, p);
    exists x :: x in PlayerCitadels(s, p) && CoordinateOfEntity(s.board, x.id).Some?
      && c in Neighbours(CoordinateOfEntity(s.board, x.id).value)
  }

  /** A citadel the player owns on the board sits on the tile its location names, and
      get_coordinate_of_entity finds that tile. */
  lemma CitadelCoordinate(s: State, p: PlayerId, x: Entity)
    requires Structure(s) && x in PlayerCitadels(s, p)
    ensures x.kind == Citadel && x.owner == Some(p) && x.location.OnTile?
    ensures CoordinateOfEntity(s.board, x.id) == Some(x.location.at)
  {
    BoardWhereMembers(s.board, OfKind(Citadel), None, Some(p), None);
    var k :| k in s.board.keys && x in TileAt(s.board, k).entities;
    var j :| 0 <= j < |Holding(s, OnTile(k))| && Holding(s, OnTile(k))[j] == x;
    var d := CoordinateOfEntity(s.board, x.id).value;
    var i :| 0 <= i < |Holding(s, OnTile(d))| && Holding(s, OnTile(d))[i].id == x.id;
    assert OnTile(d) == OnTile(k);
  }

  /** In a game whose locations name the lists holding them, each of the player's citadels is
      on a tile, and get_coordinate_of_entity finds that tile. */
  lemma CitadelsLocated(s: State, p: PlayerId)
    ensures Structure(s) ==> forall x :: x in PlayerCitadels(s, p) ==>
      x.location.OnTile? && CoordinateOfEntity(s.board, x.id) == Some(x.location.at)
  {
    if Structure(s) {
      forall x | x in PlayerCitadels(s, p)
        ensures x.location.OnTile? && CoordinateOfEntity(s.board, x.id) == Some(x.location.at)
      {
        CitadelCoordinate(s, p, x);
      }
    }
  }

  // ---------------------------------------------------------------------------------------
  // Resolving the arguments of an action

  /** What an action may be aimed at: a coordinate or a tile (both name a cell of the board),
      an entity, which stands for the list it is in, or a list that is not a tile (what
      _to_tile gives back for an entity off the board, when it is handed on again). */
  datatype TargetRef = Cell(c: Coordinate) | Holder(e: Entity) | Listed(loc: Location)

  /** What may be named as the acting entity: an entity, a class, or a cell. */
  datatype EntityRef = ByEntity(e: Entity) | ByType(t: EntityType) | ByCell(c: Coordinate)

  /** What _to_tile returns: a tile of the board, or the plain list an entity off the board
      sits in. */
  datatype Resolved = AtTile(c: Coordinate) | InList(loc: Location)

  /** The TypeError _to_tile raises for a plain list. */
  const ListTypeError := TypeError("Object must be a " + "Coordinate, Tile, or " + "Entity, not <class " + "'citadel.entity." + "EntityList'>.")

  /** Player._to_tile: a cell is its tile; an entity gives its location, which is a tile only
      when the entity is on the board; a plain list is refused. */
  function ToTile(target: TargetRef): (r: Result<Resolved>)
    ensures target.Cell? ==> r == Ok(AtTile(target.c))
    ensures target.Holder? ==> r.Ok? && (r.value.AtTile? <==> IsOnBoard(target.e))
    ensures target.Holder? && r.value.AtTile? ==> CoordinateOf(target.e) == Some(r.value.c)
    ensures target.Holder? && r.value.InList? ==> r.value.loc == target.e.location
    ensures target.Listed? ==> r == Err(ListTypeError)
  {
    match target
    case Cell(c) => Ok(AtTile(c))
    case Holder(e) => if e.location.OnTile? then Ok(AtTile(e.location.at)) else Ok(InList(e.location))
    case Listed(_) => Err(ListTypeError)
  }

  /** The object _to_tile returned, handed on as a target once more. */
  function Passed(r: Resolved): TargetRef {
    match r
    case AtTile(c) => Cell(c)
    case InList(loc) => Listed(loc)
  }

  /** Resolving a target twice: a tile resolves to itself, while the list of an entity off the
      board, resolved again, is refused. */
  lemma ToTileTwice(target: TargetRef)
    requires ToTile(target).Ok?
    ensures ToTile(target).value.AtTile? ==> ToTile(Passed(ToTile(target).value)) == ToTile(target)
    ensures ToTile(target).value.InList? ==> ToTile(Passed(ToTile(target).value)) == Err(ListTypeError)
    ensures ToTile(target).value.InList? <==> target.Holder? && !IsOnBoard(target.e)
  {
  }

  /** The entities of a tile the player owns, narrowed to pieces when there are several. */
  function OwnedAt(s: State, p: PlayerId, c: Coordinate): seq<Entity> {
    var owned := Selected(TileAt(s.board, c).entities, Filter(None, None, Some(p), None));
    if |owned| > 1 then Selected(owned, OfType(AnyPiece)) else owned
  }

  /** Player._to_entity: a cell resolves to the first entity there the player owns (a piece
      when there are several), a class to the first such entity of the stash, an entity to
      itself; ActionError when nothing is found. */
  function ToEntity(s: State, p: PlayerId, ref: EntityRef): (r: Result<Entity>)
    ensures r.Err? ==> r.error.ActionError?
    ensures ref.ByEntity? ==> r == Ok(ref.e)
  {
    match ref
    case ByEntity(e) => Ok(e)
    case ByCell(c) =>
      var found := OwnedAt(s, p, c);
      if |found| == 0 then Err(ActionError("No entities found at " + TileText(TileAt(s.board, c)) + "."))
      else Ok(found[0])
    case ByType(t) =>
      var found := Selected(Holding(s, PersonalStash(p)), OfType(t));
      if |found| == 0 then Err(ActionError("Entity '" + TypeText(t) + ("' not found in personal " + "stash.")))
      else Ok(found[0])
  }

  /** What _to_entity finds at a cell is an entity of that tile owned by the player, and a
      piece when the player owns several there; it fails exactly when the player owns
      nothing there, or several entities none of which is a piece. */
  lemma ToEntityAtCell(s: State, p: PlayerId, c: Coordinate)
    ensures var r := ToEntity(s, p, ByCell(c));
      var owned := Selected(TileAt(s.board, c).entities, Filter(None, None, Some(p), None));
      && (r.Ok? ==> r.value in TileAt(s.board, c).entities && r.value.owner == Some(p)
                    && (|owned| > 1 ==> r.value.kind.IsPiece()))
      && (r.Err? <==> |owned| == 0 || (|owned| > 1 && forall x :: x in owned ==> !x.kind.IsPiece()))
  {
    var owned := Selected(TileAt(s.board, c).entities, Filter(None, None, Some(p), None));
    SelectedMembers(TileAt(s.board, c).entities, Filter(None, None, Some(p), None));
    SelectedMembers(owned, OfType(AnyPiece));
    var found := OwnedAt(s, p, c);
    if |found| > 0 {
      assert found[0] in found;
    }
    if |owned| > 1 && |found| > 0 {
      assert found[0] in found;
    }
  }

  /** What _to_entity finds for a class is the first entity of the stash of that class; it
      fails exactly when the stash has none. */
  lemma ToEntityByType(s: State, p: PlayerId, t: EntityType)
    ensures var r := ToEntity(s, p, ByType(t));
      var stash := Holding(s, PersonalStash(p));
      && (r.Err? <==> forall x :: x in stash ==> !IsInstance(x.kind, t))
      && (r.Ok? ==> r.value in stash && IsInstance(r.value.kind, t))
  {
    var stash := Holding(s, PersonalStash(p));
    SelectedMembers(stash, OfType(t));
    var found := Selected(stash, OfType(t));
    if |found| > 0 {
      assert found[0] in found;
    }
  }
}
