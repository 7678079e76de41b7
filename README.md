# Citadel rules engine in Dafny

This project models the rules engine of the Citadel board game: the `citadel/` package. It covers
the value types of `util.py`, the entities and entity lists of `entity.py`, the tiles and the board
of `board.py`, the game of `game.py`, the player of `player.py` and the piece catalogue of
`piece.py`. It then proves what these promise: the layering rule of a tile, the citadel
connectivity flood fill, the turn order, the phase and the winner, the three verbs `place`, `move`
and `capture` with their guards, the selection quotas, reference resolution, and
`perform_action`.

The modules follow the package:

| module | file | models |
|---|---|---|
| `Util` | util.dfy | `BoolWithReason`, `Layer`, `GamePhase`, `Coordinate` and its `"x,y"` text, `Rectangle`, and the exceptions the engine raises |
| `Entities` | entities.dfy | the closed catalogue of entity classes, `Entity`, the `EntityList` operations (`append`, `where`, `where_not`, `has_type`, `get_equivalent_entity`, `copy`, the JSON form) |
| `Boards` | boards.dfy | `Tile` and `Board`: `can_add`, `Tile.append`, `__getitem__`, `place`, `remove`, `get_coordinate_of_entity`, `where`, `find_tiles`, `extents`, `copy`, `Vector` |
| `Connectivity` | connectivity.dfy | `Board.citadels_are_connected` as a walk and as a loop, and its meaning as path reachability |
| `Pieces` | pieces.dfy | `ActionList`, the action lists of each kind, `Land.get_edge_elevation` |
| `Games` | games.dfy | the game as a value: seeding, turn, the effects of the three verbs, copy and `get_equivalent`, `simulate` |
| `Players` | players.dfy | the player's quotas and choices, `land_tiles`, `citadels`, `is_adjacent_to_citadel`, `_to_tile` and `_to_entity` |
| `Rules` | rules.dfy | `Game.can_move`/`move`, `can_place`/`place`, `can_capture`/`capture`, `winner`, `phase` |
| `Coherence` | coherence.dfy | the invariant every reachable game keeps, and the proofs that the effects keep it |
| `Actions` | actions.dfy | each kind's `can_move`/`can_capture`/`can_place`, the Bird and Knight `capture`, `Player.can_perform_action`/`perform_action`, `Entity.get_tiles_by_action` |
| `Live` | live.dfy | the `Game` object whose fields the verbs change in place |

## How the program is represented

- **Entities.** An entity is a record (`Entities.Entity`) of five things:
  - an identity number, which stands in for Python object identity;
  - its kind, one of the ten classes of `piece.py`;
  - the player who created it and the player who owns it;
  - its `location`.

  The location is the back-reference the source keeps: a board tile, a player's personal stash,
  the community pool, the graveyard, or a list outside the game (`Unlisted`). Players are their
  seat numbers; the name of seat `i` is `"Player i"`, as `game.py:59-62` builds it.
- **The board.** The board is an insertion-ordered dictionary: a sequence of keys plus a map.
  This keeps the order of `dict` iteration, which `find_tiles(...)[0]`, `Board.where` and
  `get_coordinate_of_entity` depend on.
- **The game.** `Games.State` holds the game's quotas, the stashes, the board, the pool, the
  graveyard, the turn, and the next free identity. Every operation is a function of that value.
  An operation that can raise after it has already changed something returns an `Outcome`,
  which is the state it leaves behind plus the exception it raised, if any.
- **Speculative checks.** `Entity.simulate` makes a deep copy of the game, looks up the
  equivalent entity and runs the action with validation off. It becomes the same unvalidated
  effect applied to the state value (`Games.Simulate`). `Coherence.CopyIsIdentity` and
  `Coherence.EquivalentOnBoard` show that the copy and the look-up give back the same state and
  the same entity, so the simulated result is the effect itself.
- **The invariant.** `Coherence.Coherent` is the invariant of every game these operations
  reach:
  - every entity's `location` names the list that holds it;
  - identity numbers are unique and below the next free one;
  - every tile keeps one entity per layer, with a TERRAIN entity under any PIECE entity;
  - every entity on the board has an owner.

  `Coherence.SeededCoherent` shows that a new game starts coherent. `Actions.PerformKeeps`
  shows that every action a player performs keeps it.
- **The live object.** `Live.Game` is the game object as the source mutates it: a class with
  those fields. Each of its methods is proved to leave the object in the state, and to raise
  the error, that the value model computes. Every lemma about the value model is therefore a
  lemma about the object.

Where the specification and the code disagree, the model follows the code:

- `can_capture` has no ownership check (`game.py:297-313`). `Rules.CanCapture`, `Rules.Capture`
  and `Actions.Attack` are the code as written, and every action path (`Actions.CanUse`,
  `Actions.Act`, `Actions.PerformAction`, the `Live.Game` methods) goes through them. The
  owner-checked versions are kept beside them as `Rules.CanCaptureCorrected`,
  `Rules.CaptureCorrected` and `Actions.AttackCorrected`.
- `land_tiles` re-parents the lands it lists (`player.py:137-146`). `Players.LandTilesAsWritten`
  and `Players.IsDonePlacingLandsAsWritten` model that side effect for one player.
  `Rules.PhaseAsWritten` and `Live.Game.Phase` model it for `phase`, which asks every seat. They
  return the state this leaves behind, where every seat's lands point at a throwaway list,
  and they prove the phase value equals `Rules.Phase`. `Rules.Phase` and `Players.LandTiles`
  compute the same values without the side effect, and the other lemmas are stated over them.

Both are written up under "Findings".

## Model

| member | source | states |
|---|---|---|
| Util.Layer.Below | citadel/board.py:100-101 | There is a layer below exactly when the layer's value is positive, and its value is one less (`Layer(value - 1)`). |
| Util.Coordinate.Add | citadel/util.py:88-94 | Adding an offset and then subtracting the same offset gives the coordinate back. |
| Util.AdjacentCoordinates | citadel/util.py:66-86 | Raises ValueError exactly when neither flag is set. Otherwise it returns 4 or 8 distinct cells: precisely the orthogonal and/or diagonal unit steps, never the cell itself. |
| Util.NeighboursAreKingSteps | citadel/util.py:66-86 | The default eight-neighbourhood is exactly the other cells at distance at most 1 on both axes. |
| Util.NeighbourhoodsAreSymmetric | citadel/util.py:66-86 | Adjacency is symmetric, both in the eight-neighbourhood and in the orthogonal four-neighbourhood. |
| Util.NatToString | citadel/util.py:56-57 | The decimal text of a number is non-empty and made of digits only. |
| Util.IntToStringParses | citadel/util.py:56-63 | Reading back `str(i)` with `int()` gives `i`, for negative integers too. |
| Util.IntToStringInjective | citadel/util.py:56-57 | Different integers have different decimal texts. |
| Util.Split | citadel/util.py:62 | `str.split` always yields at least one part. |
| Util.CoordinateJsonRoundTrip | citadel/util.py:56-63 | `Coordinate.from_json(c.to_json()) == c` for every integer coordinate, negative components included. |
| Util.Rectangle.AddMargin | citadel/util.py:117-128 | Width and height each grow by twice the margin. A non-negative margin gives a rectangle that contains the original. |
| Util.RectangleIteration | citadel/util.py:130-134 | Iteration yields exactly the cells of the rectangle, each once, in x-major order, `max(width,0) * max(height,0)` of them. |
| Entities.PlayerNamesDiffer | citadel/game.py:59-62 | The names `"Player i"` given to the seats are distinct, so a look-up by name finds the right seat. |
| Entities.KindNamed | citadel/entity.py:238-243 | Resolving a class name gives a kind whose class name is that name. |
| Entities.KindNamedInvertsClassName | citadel/entity.py:238-243 | Every kind is found again from its own class name. |
| Entities.CoordinateOf | citadel/entity.py:91-100 | An entity has a coordinate exactly when it is on a tile, and then it is that tile's coordinate. |
| Entities.Append | citadel/entity.py:374-377 | The entity is added at the end and the earlier contents are unchanged. Its location becomes the list when resetting, and stays as it was otherwise; nothing else about it changes. |
| Entities.HasType | citadel/entity.py:281-289 | True exactly when some element is an instance of the type. |
| Entities.Where | citadel/entity.py:292-318 | The loop returns the selection of the entities that meet every given criterion, in the original order, with locations untouched (meaning proved in `Entities.WhereSemantics`). |
| Entities.WhereSemantics | citadel/entity.py:307-318 | An entity is selected iff it is in the list and meets every criterion. Selection distributes over concatenation, no criteria select everything, and selecting twice is selecting once. |
| Entities.WhereNot | citadel/entity.py:321-347 | The loop keeps exactly the entities matching none of the criteria, in order, and re-parents each one it keeps to the new list. |
| Entities.WhereNotSemantics | citadel/entity.py:336-347 | An entity is kept iff it is in the list and matches no criterion. With one criterion, `where_not` keeps exactly what `where` does not select. |
| Entities.EquivalentEntity | citadel/entity.py:261-272 | Returns the first entity of the same class, coordinate and owner name. Returns None iff every entity at the same spot has an owner that differs. Raises AttributeError when a `None` owner's name is read before a match. |
| Entities.EntitiesToJson | citadel/entity.py:218-224 | One JSON entry per entity, in order. |
| Entities.LookupPlayer | citadel/entity.py:241-242 | The `next(...)` search finds the seat whose name is the given name, and finds None only when no seat has it. |
| Entities.LookupPlayerName | citadel/entity.py:241-242 | Looking up the name of a seated player, or of no player, gives that player back. |
| Entities.EntityJsonRoundTrip | citadel/entity.py:47-54 | Decoding the JSON of an entity whose players are seated rebuilds the same entity in the new list. |
| Entities.EntityJsonReencodes | citadel/entity.py:227-246 | A JSON entry naming a known class and seated players decodes, and encodes back to the same entry. |
| Entities.ListFromJson | citadel/entity.py:227-246 | Fails exactly when some entry names an unknown class. Otherwise it gives one fresh entity per entry, in the new list, and re-encoding gives the same entries. |
| Entities.CopyList | citadel/entity.py:249-258 | A copy has one fresh entity per original entity: same class, creator and owner, located in the new list. The copy has the same JSON as the original. |
| Boards.GetItem | citadel/board.py:278-292 | A single key gives the tile at that coordinate; an absent key gives an empty tile that is not stored. A list of keys gives the tiles in order. Any other subscript raises TypeError. |
| Boards.KeysAgree | citadel/board.py:278-292 | Tuple and Coordinate keys give the same tile, and an absent key gives an empty one. |
| Boards.GetByLayer | citadel/board.py:108-117 | Returns the first entity of the layer, and None exactly when no entity has it. |
| Boards.FirstOfKind | citadel/board.py:121-150 | `Tile.land` and `Tile.citadel`: the first entity of the class, and None exactly when there is none. |
| Boards.CanAddFailsIff | citadel/board.py:88-105 | `can_add` fails exactly when the entity's layer is occupied, or when it is a PIECE and the tile has no TERRAIN entity. |
| Boards.CanAdd | citadel/board.py:88-105 | A pass means no entity on the tile has the entity's layer, and for a PIECE-layer entity that the tile holds a TERRAIN entity (the converse: `Boards.CanAddFailsIff`). |
| Boards.CanAddKeepsLayered | citadel/board.py:88-105 | Appending what `can_add` admits keeps a tile at one entity per layer, with TERRAIN under PIECE. |
| Boards.RemovingPieceLayerKeepsLayered | citadel/board.py:347-358 | Removing a PIECE-layer entity keeps a tile layered. |
| Boards.AdjacentTiles | citadel/board.py:166-174 | The tiles at the adjacent coordinates, in their order. Raises exactly when both flags are off. |
| Boards.Put | citadel/board.py:84 | Storing a tile keeps the key order of an existing key and appends a new key, so the board stays consistent. |
| Boards.Without | citadel/board.py:357 | Deleting a key removes exactly that key and keeps the others distinct. |
| Boards.Delete | citadel/board.py:357 | `del board[c]` removes the key and its tile and keeps the board consistent. |
| Boards.TileAppend | citadel/board.py:79-85 | Raises ValueError with the `can_add` reason exactly when `can_add` fails. Otherwise the entity is appended and the tile is stored on the board. |
| Boards.TileAppendEffect | citadel/board.py:79-85 | On success the entity is last on the tile, with the tile as its location, and every other tile is unchanged. |
| Boards.RemoveEntity | citadel/board.py:355 | `list.remove` raises ValueError exactly when the entity is absent. Otherwise it drops its first occurrence and keeps the order. |
| Boards.CoordinateOfEntity | citadel/board.py:335-344 | Returns a stored key whose tile holds the entity, and None exactly when no tile holds it. |
| Boards.Remove | citadel/board.py:347-358 | Raises ValueError exactly when no tile holds the entity. Otherwise the entity leaves its tile, the key is deleted once the tile is empty, and other tiles are unchanged. |
| Boards.Place | citadel/board.py:320-332 | Returns the board and the entity as the call leaves it. The tile is always stored. The entity is appended exactly when `can_add` passes. Without `to_test` its location is the tile, even when the append then raises, because the location is written first; with `to_test` it is unchanged. When the append raises, the tile is unchanged. Other tiles are unchanged. |
| Boards.Copy | citadel/board.py:306-317 | The copy is the board named "main" with the same keys, in the same order, holding the same entities. |
| Boards.BoardWhere | citadel/board.py:361-379 | Everything `Board.where` returns meets every criterion (which ones it finds: `Boards.BoardWhereMembers`). |
| Boards.BoardWhereMembers | citadel/board.py:361-379 | `Board.where` returns exactly the entities on stored tiles that meet every criterion. |
| Boards.FindTiles | citadel/board.py:382-405 | `find_tiles` lists exactly as many tiles as `Board.where` finds entities with the same criteria. |
| Boards.Citadels | citadel/board.py:408-413 | `board.citadels` holds exactly the Citadels that lie on stored tiles. |
| Boards.FindTilesCountsMatches | citadel/board.py:382-405 | `find_tiles` lists a tile once per matching entity on it, so its length is the number of matches. |
| Boards.FindTilesFirst | citadel/board.py:382-405 | When something matches, the first tile listed is a stored tile that holds the first match. |
| Boards.Extents | citadel/board.py:443-459 | The loop gives the smallest and largest x and y over the stored keys, each attained by some key, or `Rectangle(0,0,0,0)` on an empty board. |
| Boards.VectorGeometry | citadel/board.py:528-534 | For a neighbour, straight means an orthogonal step and diagonal means a diagonal step. A vector is both straight and diagonal only when it has length zero. |
| Boards.VectorTo | citadel/entity.py:103-111 | Raises exactly when the entity is not on the board. Otherwise the vector runs from its coordinate to the target's. |
| Boards.BoardToJson | citadel/board.py:229-235 | The board's name, and one `"x,y"`-keyed tile entry per stored key, in board order. |
| Connectivity.RegionIsReachable | citadel/board.py:428-438 | The walk from a tile visits exactly the cells reachable from it by orthogonal steps that leave only from tiles holding a TERRAIN entity. |
| Connectivity.Walk | citadel/board.py:428-438 | The flood fill keeps every cell it has visited and every cell still queued, and never leaves the stored tiles. |
| Connectivity.AllMetEarly | citadel/board.py:435-436 | Stopping the walk once every citadel has been met does not change the set of citadels met. |
| Connectivity.CitadelIdsBound | citadel/board.py:409-413 | The citadels the walk meets are among `board.citadels`, so there are never more of them than that. |
| Connectivity.CitadelsAreConnected | citadel/board.py:416-440 | The loop computes `citadels_are_connected`: true with at most one citadel, otherwise whether the walk from the first citadel tile meets every citadel. |
| Connectivity.CitadelsConnected | citadel/board.py:416-440 | A board with at most one citadel is connected. The meaning with more: `Connectivity.ConnectedIffAllReachable`. |
| Connectivity.OneCitadelPerTile | citadel/board.py:143-150 | A layered tile yields one citadel to `where(Citadel)` when it has one, and none otherwise. |
| Connectivity.CitadelCount | citadel/board.py:408-413 | On a coherent board, `len(board.citadels)` is the number of tiles holding a citadel. |
| Connectivity.ConnectedIffAllReachable | citadel/board.py:416-440 | With two or more citadels, they are connected iff every citadel tile is reachable from the first through terrain. |
| Pieces.VerbNamed | citadel/piece.py:88-93 | Only "place", "move" and "capture" name a verb, and each names the verb whose name it is. |
| Pieces.Add | citadel/piece.py:58-62 | Adding an action under a new name appends it. Adding under an existing name keeps the length. Either way the names are the old names plus the new one. |
| Pieces.ActionLists | citadel/piece.py:88-93 | The action lists, in order, with names and descriptions: Bird move, capture, place; Knight likewise (piece.py:132-137); Land and Citadel place only (piece.py:279-282, 303-307). |
| Pieces.ActionNames | citadel/piece.py:168-214 | Bird and Knight offer exactly {move, capture, place}, Land and Citadel exactly {place}, and every other kind, Turtle included, nothing; no name appears twice. |
| Pieces.OfferedNamesAreVerbs | citadel/player.py:256-258 | An action name is offered by a kind iff it names a verb that the kind's list holds. |
| Pieces.VerbOffered | citadel/piece.py:88-93 | Bird and Knight offer every verb; Land and Citadel offer only place; no other kind offers any. |
| Pieces.EdgeElevation | citadel/piece.py:257-276 | The result is 0 when the land is not on a tile or the neighbour in that direction has no Land. It is 2 when that neighbour has no water among its eight neighbours, and 1 otherwise. |
| Pieces.WaterCount | citadel/piece.py:273 | The number of water tiles among the cells is zero exactly when none of them is water. |
| Games.New | citadel/game.py:59-62 | Raises IndexError once there are more players than the four seat rotations. Otherwise the game has `max(players, 0)` seats, turn 0, an empty board, pool and graveyard. |
| Games.CurrentPlayer | citadel/game.py:166-170 | With no players, `turn % 0` raises ZeroDivisionError. Otherwise the current player is a seated player. |
| Games.EndTurn | citadel/game.py:173-176 | `end_turn` advances the turn counter by exactly one; that this hands play to the next seat is `Games.EndTurnRotates`. |
| Games.EndTurnRotates | citadel/game.py:166-176 | After `end_turn` the current player is the next seat in cyclic order, and nothing but the turn has changed. |
| Games.Detach | citadel/game.py:253 | `entity.location.remove(entity)` raises ValueError exactly when the list it names lacks the entity. Otherwise it replaces that list by the list without it. A list outside the game changes nothing. |
| Games.Reload | citadel/entity.py:227-246 | Reloading a list gives the same entities, in the new list, with creators and owners re-resolved by seat. |
| Games.PlaceEffect | citadel/game.py:292-294 | The unvalidated place keeps the turn and the seats. It can only raise ValueError, from the removal or from `Tile.append`. On success the entity, now owned by the player and located on the tile, is the last entity on the target tile. |
| Games.MoveEffect | citadel/game.py:253-254 | The unvalidated move keeps the turn and the seats. It can only raise ValueError. On success the entity, located on the tile, is the last entity on the target tile. |
| Games.CaptureEffect | citadel/game.py:322-325 | The unvalidated capture keeps the turn and the seats. With no Piece on the tile it raises IndexError and changes nothing. On success the victim, now located in the graveyard, is appended to the graveyard. |
| Games.AttackEffect | citadel/piece.py:121-124 | The unvalidated capture-and-move keeps the turn and the seats. On success there was a victim, and the attacker, located on the tile, is the last entity on the target tile. |
| Games.Execute | citadel/player.py:282-283 | An unvalidated action keeps the turn and the seats. On success the acting entity, by identity, is last on the target tile and located there. |
| Games.GetEquivalent | citadel/game.py:136-163 | An equivalent found anywhere in the game has the same class, the same coordinate and the same owner as the entity. |
| Games.Simulate | citadel/entity.py:172-189 | A simulation succeeds only for an action the entity offers, and only when the look-up of its equivalent in the copy does not raise. An action it does not offer always raises. |
| Games.CopyGame | citadel/game.py:125-131 | The copy has the same seats, and the same board keys in the same order (equality with the original: `Coherence.CopyIsIdentity`). |
| Players.PlaceableEntities | citadel/player.py:73-77 | The concatenation holds as many entities as the personal stash and the community pool together (which entities, in `Players.MayPlaceIff`). |
| Players.MayPlaceIff | citadel/game.py:269-270 | A player may place exactly what is in their stash or in the community pool. |
| Players.CommunityQuota | citadel/player.py:95-100 | A player is done choosing community pieces iff the Pieces they created in the pool reach the quota. |
| Players.ChooseCommunityPiece | citadel/player.py:110-120 | Raises the quota ValueError, with its exact message, exactly when the quota is reached. Otherwise it appends one fresh piece created by the player, unowned, to the end of the pool. |
| Players.ChoosePersonalPiece | citadel/player.py:123-134 | Raises the quota ValueError, with its exact message, once the stash holds the quota of Pieces; Land and Citadel do not count. Otherwise it appends one fresh piece to the stash, created and owned by the player. |
| Players.CommunityChoiceCounts | citadel/player.py:80-84 | A community choice raises the chooser's count by one for a Piece class and leaves every other player's count alone. |
| Players.PersonalChoiceCounts | citadel/player.py:87-92 | A personal choice raises the chooser's count of personal Pieces by one for a Piece class and leaves everyone else's alone. |
| Players.ChoicesKeep | citadel/player.py:110-134 | Both choices keep a coherent game coherent. |
| Players.LandTilesAreBoardLands | citadel/player.py:137-146 | `land_tiles` counts as many lands as `board.where(Land, created_by=player)` finds, and each one it lists is one of those. |
| Players.LandTilesAreHeld | citadel/player.py:137-146 | Every land listed is a Land the player created, lying on the tile it names. |
| Players.LandTiles | citadel/player.py:137-146 | Read without the side effect, `land_tiles` lists only Lands the player created, each lying on a stored tile. |
| Players.LandTilesAsWritten | citadel/player.py:137-146 | As written, the loop lists the player's lands re-parented to the new list, and leaves each of them on its tile with that list as its location. |
| Players.LandTilesAsWrittenBreaksLocation | citadel/player.py:142-145 | As written, reading `land_tiles` when the player has a land on the board leaves the game with an entity whose location is not the list that holds it. |
| Players.IsDonePlacingLandsAsWritten | citadel/player.py:149-153 | As written, the answer is the side-effect-free count compared with the quota, and the state after is the one `land_tiles` leaves, with the player's lands re-parented. |
| Players.DetachSeatsKeeps | citadel/game.py:184 | Running `land_tiles` for any number of seats changes no player's count of lands and no player's citadels, so the later stages of `phase` read the same values. |
| Players.PlayerCitadels | citadel/player.py:156-161 | `player.citadels` holds exactly the Citadels the player owns that lie on stored tiles. |
| Players.CitadelCoordinate | citadel/player.py:185-186 | Each of the player's citadels is owned by them and lies on a tile, and `get_coordinate_of_entity` finds that tile. |
| Players.IsAdjacentToCitadel | citadel/player.py:171-189 | In a game whose locations name the lists holding them, `is_adjacent_to_citadel(c)` holds iff c is in the eight-neighbourhood of some citadel the player owns on the board. |
| Players.ToTile | citadel/player.py:203-217 | A coordinate gives its tile. An entity gives its location: a tile exactly when it is on the board, and the same list otherwise. Any other target raises TypeError. |
| Players.ToTileTwice | citadel/player.py:253-254 | Converting a tile again gives the same tile. Converting an entity's non-tile list again raises TypeError, which is why `can_perform_action` on an off-board target raises. |
| Players.ToEntity | citadel/player.py:220-242 | Failures are ActionErrors, and an entity argument is returned as it is. |
| Players.ToEntityAtCell | citadel/player.py:227-235 | A cell gives an entity on it that the player owns, a Piece when they own more than one there. It raises exactly when the player owns none there, or owns several of which none is a Piece. |
| Players.ToEntityByType | citadel/player.py:238-242 | A class gives an instance of it from the personal stash, and raises exactly when the stash has none. |
| Rules.CanMove | citadel/game.py:219-238 | A passing check means the target tile admits the piece and the piece is the player's. |
| Rules.Move | citadel/game.py:241-254 | When `can_move` does not pass, `move` changes nothing. A failed check raises PlacementError("Cannot move <piece> to <tile>: <reason>"), and an exception from the check escapes as it is. |
| Rules.CanPlace | citadel/game.py:257-275 | A passing check means the tile admits the entity and the player may place it; for a Piece, also that it is next to one of the player's citadels. |
| Rules.CanPlaceMeans | citadel/game.py:257-275 | `can_place` passes exactly when the tile admits the entity, the player may place it and, for a Piece, the tile is next to one of the player's citadels. |
| Rules.Place | citadel/game.py:278-294 | When `can_place` fails, `place` changes nothing and raises PlacementError("Cannot place <entity> on <tile>: <reason>"). |
| Rules.CanCapture | citadel/game.py:297-313 | As written, a passing check only means there is a Piece to take; there is no ownership test. The iff is `Rules.CanCaptureMeans`. |
| Rules.CanCaptureCorrected | citadel/game.py:297-313 | Corrected: a passing check means there is a Piece to take and the capturing piece is the player's. |
| Rules.CanCaptureCorrects | citadel/game.py:297-313 | The corrected check agrees with the written one for the player's own piece, and refuses, without raising, a capture by anyone else's piece at a tile with a Piece. |
| Rules.Capture | citadel/game.py:316-325 | As written: when `can_capture` does not pass, `capture` changes nothing. A failed check raises PlacementError("Cannot capture <tile> with <piece>: <reason>"), and an exception from the check escapes as it is. |
| Rules.CaptureCorrected | citadel/game.py:316-325 | Corrected: when the owner-checked check does not pass, and in particular for another player's piece, `capture` raises and changes nothing. |
| Rules.SimulatedOffer | citadel/entity.py:172-189 | `simulate` succeeds only for an offered action, and then gives exactly the unvalidated effect: its state, or the error it raised. |
| Rules.CanMoveMeans | citadel/game.py:219-238 | For a piece on the board, `can_move` passes iff the tile admits it, it is the player's, the unvalidated move succeeds, and the citadels stay connected afterwards. |
| Rules.MoveKeeps | citadel/game.py:241-254 | `move` keeps the game coherent. A refused move changes nothing. A successful one takes the piece, which is the player's, off its list and appends it to the target tile, and nothing else. |
| Rules.MoveConnects | citadel/game.py:233-236 | A successful validated move leaves the citadels connected. |
| Rules.PlaceableLocation | citadel/player.py:73-77 | What a player may place lies in their own stash or in the community pool. |
| Rules.PlaceKeeps | citadel/game.py:278-294 | `place` keeps the game coherent. A refused place changes nothing. A successful one moves the entity from the player's stash or the pool to the tile, now owned by the player, and nothing else. |
| Rules.CanCaptureMeans | citadel/game.py:297-313 | For a piece on the board, `can_capture` as written passes iff there is a Piece to take, the unvalidated capture-and-move succeeds, and the citadels stay connected. Ownership plays no part. |
| Rules.CapturePassSimulated | citadel/game.py:305-311 | Any passing check, whoever owns the piece, means there is a victim and the simulated capture-and-move ran without raising. |
| Rules.CaptureKeeps | citadel/game.py:316-325 | `capture` as written keeps the game coherent, whoever owns the piece. When refused it changes nothing. When it goes ahead, the first Piece on the tile, a PIECE-layer entity, goes to the end of the graveyard and off the board. |
| Rules.CaptureCommits | citadel/game.py:316-325 | After a passing check the capture always commits: it is the unvalidated capture, it raises nothing, keeps the game coherent, and appends the PIECE-layer victim to the graveyard. |
| Rules.HasCitadels | citadel/game.py:199 | One flag per seat, true exactly for the players with a citadel on the board. |
| Rules.IndexOfTrue | citadel/game.py:201 | `index(True)` is the first true flag. |
| Rules.Winner | citadel/game.py:195-202 | A winner is a seated player who has a citadel on the board (the full iff: `Rules.WinnerIsSoleHolder`). |
| Rules.WinnerIsSoleHolder | citadel/game.py:195-202 | The winner is w exactly when w is the only player with a citadel on the board. |
| Rules.LandsPlaced | citadel/player.py:149-153 | Everyone is done placing lands iff every player has created at least `lands_per_player` lands on the board. |
| Rules.PhaseSpec | citadel/game.py:179-192 | The phase value is the first unmet stage: every later phase has all lands placed, the phases from piece selection on have all citadels placed, and battle and end have all pieces chosen. LAND_PLACEMENT means some player lacks lands. END holds exactly when all stages are done and there is a winner, who is then the sole holder of citadels. The side effect of reading it is `Rules.PhaseAsWritten`. |
| Rules.Phase | citadel/game.py:179-192 | BATTLE and END come only once every stage is done; END only with a winner, and then no other seat has a citadel on the board. |
| Rules.PhaseReadsCounts | citadel/game.py:179-202 | Two games that differ only in their boards, and agree on every seat's count of lands and on its citadels, agree on every stage of `phase` and on the winner. |
| Rules.LandAnswers | citadel/game.py:184 | The list comprehension asks every seat in order. Answer q is seat q's `is_done_placing_lands`, and the state after has each seat's lands re-parented in turn. |
| Rules.AskSeat | citadel/player.py:149-153 | One seat asked through `land_tiles` after the seats before it: the answers grow by that seat's side-effect-free `is_done_placing_lands`, and the board becomes the one the next seat sees, still well formed. |
| Rules.LandsDone | citadel/game.py:184 | The first n answers of the comprehension, one per seat, each the seat's `is_done_placing_lands`. |
| Rules.PhaseAsWritten | citadel/game.py:179-192 | As written, reading `phase` gives the value `Rules.Phase` gives, and leaves the game with every seat's lands re-parented by `land_tiles`; nothing else changes. |
| Coherence.DetachHeld | citadel/game.py:253 | Removing an entity from the list that holds it succeeds, drops just that entry, and keeps the structure with the identity no longer held. |
| Coherence.MoveEffectIsTransfer | citadel/game.py:253-254 | The unvalidated move of an admitted piece is a transfer from its list to the end of the target tile. |
| Coherence.PlaceEffectIsTransfer | citadel/game.py:292-294 | The unvalidated place of an admitted entity is a transfer, with the player as new owner, to the end of the target tile. |
| Coherence.TransferKeeps | citadel/game.py:292-294 | A transfer of an admitted entity to a tile keeps the game coherent. |
| Coherence.MoveNeedsAdmission | citadel/board.py:79-85 | A move only succeeds when the target tile admits the entity. |
| Coherence.MoveNeedsTerrain | citadel/board.py:100-103 | A PIECE cannot be moved onto a tile that has no TERRAIN entity. |
| Coherence.CopyIsIdentity | citadel/game.py:125-131 | Copying a coherent game through its JSON form gives back the same game. |
| Coherence.TileEquivalent | citadel/entity.py:261-272 | On a layered tile, the equivalent of an owned entity is itself. |
| Coherence.ListEquivalent | citadel/entity.py:261-272 | In a list where every other entity at the same spot has a different owner, the equivalent of an owned entity is itself. |
| Coherence.BoardSearch | citadel/board.py:498-510 | The board's search for an entity on tile c finds it exactly when c is among the keys searched. |
| Coherence.EquivalentOnBoard | citadel/game.py:136-163 | In a coherent game the equivalent of any entity on the board is itself. |
| Coherence.EquivalentInStash | citadel/game.py:136-163 | The equivalent of an owned stash entity is itself, when no other off-board entity of its class shares its owner. |
| Coherence.SimulateIsExecute | citadel/entity.py:172-189 | For an entity that is its own equivalent and an offered action, `simulate` gives the outcome of the unvalidated action. |
| Coherence.SimulateNeedsOffer | citadel/entity.py:187 | Simulating an action the entity does not offer raises KeyError with the action's name. |
| Coherence.VictimIsHeld | citadel/game.py:323 | The captured entity is a Piece held by the target tile. |
| Coherence.CaptureIsEffect | citadel/game.py:322-325 | Capturing the victim succeeds: it lands at the end of the graveyard and leaves its tile, and no other list changes. |
| Coherence.CaptureKeeps | citadel/game.py:322-325 | Sending a PIECE-layer victim to the graveyard keeps the game coherent. |
| Coherence.AttackTookPiece | citadel/piece.py:121-124 | When the capture-and-move succeeds, the victim was a PIECE-layer entity. |
| Coherence.AttackEffectKeeps | citadel/piece.py:121-124 | A successful capture-and-move by an owned piece keeps the game coherent. |
| Coherence.SeededCoherent | citadel/game.py:64-71 | A new game is coherent. Each player's stash holds `lands_per_player` Lands they created, unowned, then one Citadel they both created and own. |
| Actions.MoveRuleMeans | citadel/piece.py:96-106 | `move` is usable iff the piece is on the board, reaches the tile, the tile admits it, it is the player's, the move succeeds and the citadels stay connected. Bird reach is a straight line; Knight reach is one step (piece.py:140-147). |
| Actions.MoveUseIsCheck | citadel/piece.py:140-147 | For Bird and Knight, `move` is usable iff the piece is on the board, reaches the tile, and `Game.can_move` passes. |
| Actions.CaptureRuleMeans | citadel/piece.py:109-118 | `capture` is usable iff the piece is on the board, reaches the tile, there is a Piece to take, and the capture-and-move succeeds with the citadels still connected. As in the code, ownership plays no part. |
| Actions.CaptureUseIsCheck | citadel/piece.py:156-164 | For Bird and Knight, `capture` is usable iff the piece is on the board, reaches the tile and `Game.can_capture` as written passes. |
| Actions.PlaceRuleMeans | citadel/piece.py:285-293 | `place` is usable iff `Game.can_place` passes, a Land goes next to a Land or onto a board without any, and a Citadel's placement leaves citadels connected (piece.py:310-318). |
| Actions.ListTargetRaises | citadel/player.py:215-216 | Using any action on a target that is a list rather than a tile raises. The exception is the AttributeError or TypeError each check's first reference to the tile produces. |
| Actions.BirdCanMove | citadel/piece.py:96-106 | A list target raises. A pass means the Bird is on the board, the target is in a straight line from it, and `Game.can_move` passes. |
| Actions.BirdCanCapture | citadel/piece.py:109-118 | A list target raises. A pass means the Bird is on the board, the target is in a straight line from it, and `Game.can_capture` as written passes. |
| Actions.KnightCanMove | citadel/piece.py:140-147 | A list target raises. A pass means the Knight is on the board, the target is one of its eight neighbours, and `Game.can_move` passes. |
| Actions.KnightCanCapture | citadel/piece.py:156-164 | A list target raises. A pass means the Knight is on the board, the target is one of its eight neighbours, and `Game.can_capture` as written passes. |
| Actions.EntityCanPlace | citadel/entity.py:153-154 | A list target raises. A pass means the target is a tile and `Game.can_place` passes. |
| Actions.LandCanPlace | citadel/piece.py:285-293 | A list target raises. A pass means the Land goes next to a Land or onto a board without any, and `Game.can_place` passes. |
| Actions.CitadelCanPlace | citadel/piece.py:310-318 | A list target raises. A pass means the simulated place succeeded, it leaves the citadels connected, and `Game.can_place` passes. |
| Actions.CanUse | citadel/player.py:256-260 | The `can_use` of an offered action: a list target raises, and a pass means a tile target for which the verb's own check passes. That is `Game.can_place` for place, and for move and capture a piece on the board for which `Game.can_move` or the written `Game.can_capture` passes. |
| Actions.ForeignAttackCommitsThenRaises | citadel/piece.py:121-124 | As written, a Bird or Knight capture with another player's piece sends the victim to the graveyard and then raises PlacementError from the move. |
| Actions.Attack | citadel/piece.py:121-124 | As written: when `can_capture` does not pass, the capture changes nothing and raises what `game.capture` raises, the PlacementError with the reason or the check's own exception. A capture that raises nothing passed `can_capture` and used the player's own piece, because the move that follows checks ownership. |
| Actions.AttackCorrected | citadel/piece.py:121-124 | Corrected: when the owner-checked check does not pass, and in particular for another player's piece, the capture raises and changes nothing. |
| Actions.ForeignMoveRaises | citadel/game.py:228-229 | Moving another player's piece raises PlacementError and changes nothing. |
| Actions.ForeignAttackRefused | citadel/piece.py:121-124 | Corrected: a capture with another player's piece raises the ownership PlacementError and changes nothing. |
| Actions.AttackRefused | citadel/piece.py:121-124 | A capture whose written check does not pass changes nothing and raises the capture's PlacementError with the check's reason, or the check's own exception. |
| Actions.AttackPassedKeeps | citadel/piece.py:121-124 | After a passing written check, whoever owns the piece, the capture keeps the game coherent and the turn alone. If the move then raises, only the capture has happened. If it succeeds, the piece was the player's, the state is the capture-and-move effect and the citadels are connected. |
| Actions.AttackCommitted | citadel/piece.py:150-153 | After a passing written check the capture has committed, whoever owns the piece. The following validated move either changes nothing more or moves the attacker, then the player's own, onto the tile; the game stays coherent. |
| Actions.MoveTurn | citadel/game.py:241-254 | `move` never changes the turn. |
| Actions.CitadelPlaceConnects | citadel/piece.py:310-318 | A usable Citadel place succeeds and leaves the citadels connected. |
| Actions.Act | citadel/player.py:282-283 | `action.execute` with validation on: success means the verb's check passed (`Game.can_place`, `Game.can_move` or the written `Game.can_capture`), and for move and capture that the piece is the player's. |
| Actions.ActKeeps | citadel/player.py:282-283 | Executing an offered action, capture as written included, keeps the game coherent and the turn unchanged. A success is the unvalidated effect. A refused place or move changes nothing. A successful move or capture leaves the citadels connected. |
| Actions.PlaceActKeeps | citadel/game.py:278-294 | A validated `place` keeps the game coherent and the turn. A success is the unvalidated place effect; a refusal changes nothing. |
| Actions.MoveActKeeps | citadel/game.py:241-254 | A validated Bird or Knight `move` keeps the game coherent and the turn. A success is the unvalidated move effect and leaves the citadels connected; a refusal changes nothing. |
| Actions.CaptureActKeeps | citadel/piece.py:150-153 | A validated capture as written keeps the game coherent. It changes nothing, or stops after the capture has committed (another player's piece), or when it succeeds takes a PIECE with the player's own piece, reaching the capture-and-move effect with the citadels connected. |
| Actions.CanPerformAction | citadel/player.py:245-260 | Raises when the target or the entity cannot be resolved. A pass means a tile target, a resolved entity, and an action name the entity offers. |
| Actions.PerformAction | citadel/player.py:263-284 | A call that raises nothing had a tile target, a resolved entity and an offered action name. |
| Actions.PerformActionChecks | citadel/player.py:278-281 | `perform_action` succeeds only when `can_perform_action` passes. When it does not pass it raises and changes nothing; for a tile target, a failed check raises ActionError with the check's reason. |
| Actions.PerformRefused | citadel/player.py:275-281 | When the target or the entity cannot be resolved, or `can_perform_action` does not pass, `perform_action` changes nothing. It raises the resolution's error, the check's own exception, or ActionError with the check's reason. |
| Actions.PerformCommits | citadel/player.py:275-284 | Once the target and the entity resolve and `can_perform_action` passes, the target is a tile, the action is offered, and `perform_action` is the validated action followed by `end_turn` unless that action raised. |
| Actions.PerformKeeps | citadel/player.py:263-284 | Every `perform_action`, including a capture as written with another player's piece, keeps the game coherent; when it raises, the turn is unchanged. A success has a tile target, a resolved entity and an offered action. Its state is the action's effect followed by `end_turn`, and after a move or a capture the citadels are connected. |
| Actions.EndTurnKeeps | citadel/game.py:173-176 | Ending the turn keeps the game coherent. |
| Actions.TilesByAction | citadel/entity.py:157-169 | A name the entity does not offer selects nothing. Otherwise the selection holds only board keys, no more of them than there are keys (exactly which: `Actions.TilesByActionMeans`). |
| Actions.TilesByActionMeans | citadel/entity.py:157-169 | For an offered action, the coordinates returned are exactly the board keys at which the action is usable, no more of them than there are keys. It raises exactly when some tile's check raises. |
| Actions.GetTilesByAction | citadel/entity.py:157-169 | The loop over the board computes the selection characterised by `Actions.TilesByActionMeans`. |
| Live.Game.constructor | citadel/game.py:20-71 | A new game object is in the seeded state: the quotas, one stash per player, an empty board, pool and graveyard, and turn 0. |
| Live.Game.EndTurn | citadel/game.py:173-176 | The object moves to the state `end_turn` gives. |
| Live.Game.Phase | citadel/game.py:179-192 | Reading the phase returns `Rules.Phase` of the object's state, and leaves the board with every seat's lands re-parented, as `phase` does through `land_tiles`. |
| Live.Game.Leave | citadel/game.py:253 | Removing an entity from its list raises the ValueError `Games.Detach` predicts and changes nothing then, or leaves the object in the detached state. |
| Live.Game.Shift | citadel/game.py:253-254 | The unvalidated move changes the object, and raises, exactly as `Games.MoveEffect` says. |
| Live.Game.Place | citadel/game.py:278-294 | The object ends in the state, and raises the error, that `Rules.Place` gives. |
| Live.Game.Move | citadel/game.py:241-254 | The object ends in the state, and raises the error, that `Rules.Move` gives. |
| Live.Game.Capture | citadel/game.py:316-325 | The object ends in the state, and raises the error, that the written `Rules.Capture` gives, with no ownership test. |
| Live.Game.Take | citadel/game.py:322-325 | The unvalidated capture changes the object as `Games.CaptureEffect` says. |
| Live.Game.Attack | citadel/piece.py:121-124 | The Bird or Knight capture as written, a capture followed by a move, ends the object in the state `Actions.Attack` gives, including the committed capture when the move refuses another player's piece. |
| Live.Game.PerformAction | citadel/player.py:263-284 | The object ends in the state, and raises the error, that `Actions.PerformAction` gives, through the written capture. |
| Live.Game.Execute | citadel/player.py:282-283 | Executing an action changes the object as `Actions.Act` says, through the written capture. |
| Live.Game.ChooseCommunityPiece | citadel/player.py:110-120 | Raises the quota error and changes nothing, or appends the new piece to the pool, as `Players.ChooseCommunityPiece` says. |
| Live.Game.ChoosePersonalPiece | citadel/player.py:123-134 | Raises the quota error and changes nothing, or appends the new piece to the stash, as `Players.ChoosePersonalPiece` says. |
| Live.DealLands | citadel/game.py:64-67 | One round of the land loop gives every player one more Land, created by that player. |
| Live.DealCitadels | citadel/game.py:68-71 | The citadel loop ends every player's stash with their citadel, giving the starting stashes. |
| Live.NewGame | citadel/game.py:20-71 | Construction raises exactly when `Games.New` does, and otherwise returns a fresh object in the new-game state. |

## Left out

- The pygame scripts, the UI screens, and the rendering helpers are not part of this model. This covers `Tile.short_html`, `Tile.color`, every `_repr_html_`, `abbreviation`, `img` and `color`, and `Land.img`, which reads the file system and prints.
- The JSON text step of `Game.copy` (`json.dumps`/`json.loads`) and the `importlib`/`getattr` reflection are left out. A copy is modelled as its structural effect over the closed catalogue of classes.
- Random seat colours and rotations are display data; only the seat count they limit is modelled (`Games.New`).
- Player objects and their back-references to the game: a player is a seat number, and its name is derived from it. `Player.to_json`/`from_json` and `Player.copy` are not modelled. `Player.copy` passes too few arguments to the constructor (player.py:67).
- Tile names read back by `Tile.from_json` are not kept. A tile's name is always the board name followed by the coordinate text.
- `Game.from_json` resolves the owners of the reloaded stashes against the placeholder players its constructor made (game.py:110-117). The model reloads against seat numbers, so the placeholder step is not visible.
- `choose_personal_piece` and `choose_community_piece` with an instance argument are left out. Re-parenting an existing piece is not modelled; only the class argument is.
- `Player.place`, `Player.move` and `Player.capture` (player.py:287-294) are `perform_action` with a fixed name. They are covered by `Actions.PerformAction` with that name.
- `perform_action` with `validate_actions` switched off is modelled only as it happens inside `simulate` (`Games.Execute`).
- `Game.available_pieces` is left out: it is state that only the UI uses.
- These source paths are already broken and are left out:
  - `Tile.piece`, because `Piece` is not imported at run time;
  - `Board.__contains__` for an Entity key;
  - the default `entity_type` of `Board.where` and `find_tiles`, which passes a typing alias to `isinstance`;
  - `ActionList.usable_actions`, which builds an `ActionList` without arguments.

  `Board.where` and `find_tiles` take a required type.
- `Entity.board` is not kept as a separate value: there is one board, so "on the target's board" means "on the board" (`IsOnBoard`).
- Object identity is modelled by identity numbers. Two distinct Python objects with equal fields are distinct records here.
- Actions.GetTilesByAction: takes the player as a parameter. The source passes the entity's `owner`, which is `None` for an unowned Land or for a stash entity. That makes `can_use` dereference `None`, and that failing case is not modelled.
- Games.CopyGame: its own contract states only the seats and the board keys. Equality with the original game is stated separately, for coherent games, in `Coherence.CopyIsIdentity`.
- Rules.CanMove, Rules.CanPlace and Rules.CanCapture: their own contracts state only what a pass implies. The equivalences are `Rules.CanMoveMeans` and `Rules.CanCaptureMeans`, stated for pieces held in a coherent game, and `Rules.CanPlaceMeans`, stated for any game.
- Players.IsDonePlacingLands and Players.IsDonePlacingCitadels are plain predicates, the quota comparisons of player.py:149-153 and 164-168. What `is_done_placing_lands` means on a layered board is `Rules.LandsPlaced`, and its side effect is `Players.IsDonePlacingLandsAsWritten`.
- Games.GetEquivalent: its own contract states only that what it finds is equivalent. The search order, and that in a coherent game it finds the entity itself, are `Coherence.EquivalentOnBoard` and `Coherence.EquivalentInStash`.
- Boards.BoardWhere and Boards.FindTiles: their own contracts state soundness and the count. Exact membership and the first tile are `Boards.BoardWhereMembers` and `Boards.FindTilesFirst`.
- Connectivity.Walk: its own contract states only the bounds of the visited set. What it visits is `Connectivity.RegionIsReachable`.
- Actions.CanPerformAction, Actions.PerformAction and Actions.Act: their own contracts state what a pass or a success implies. The full effect of a success is `Actions.PerformCommits`, `Actions.ActKeeps` and `Actions.PerformKeeps`; what a refusal raises is `Actions.PerformActionChecks` and `Actions.PerformRefused`.

## Findings

| source | as written | input that shows it | evidently intended | confidence | as-written member | corrected member |
|---|---|---|---|---|---|---|
| citadel/game.py:297-313 | `can_capture` never checks that the capturing piece belongs to the player. `Bird.capture` and `Knight.capture` then run `game.capture` before `self.move`, and only the move checks ownership. | Player 0 performs `capture` with Player 1's Bird, aimed at a tile holding a Piece, where the citadels stay connected. The victim goes to the graveyard, then the move raises PlacementError, and the game is left half-changed. | Refuse the capture, changing nothing, when the piece is not the player's, as `can_move` does. | not executed | Actions.ForeignAttackCommitsThenRaises | Actions.ForeignAttackRefused |
| citadel/player.py:142-145 | `land_tiles` appends each land to a fresh `EntityList` with the default `reset_location=True`, so every listed land's `location` becomes that temporary list. `is_done_placing_lands` and therefore `phase` read it. | Any game in which the player has a Land on the board: after `player.land_tiles` is read, that Land's `coordinate` is `None` although it still lies on its tile. | A query that leaves every entity where it is (`append(..., reset_location=False)`, as `where` does). | not executed | Players.LandTilesAsWrittenBreaksLocation | Players.LandTilesAreHeld |
