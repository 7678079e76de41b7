/** The invariant a game keeps while it is played through validated actions: every entity sits
    in the list its location names, once, with players that exist and an id below the next
    one to hand out; tiles obey the layering rule; and everything on the board has an owner.
    The lemmas show that the effects of citadel/game.py and citadel/entity.py keep it. */
module Coherence {
  import opened Util
  import opened Entities
  import opened Boards
  import opened Pieces
  import opened Games

  /** Every record sits in the list its location names. */
  ghost predicate Located(s: State) {
    forall loc: Location, i :: 0 <= i < |Holding(s, loc)| ==> Holding(s, loc)[i].location == loc
  }

  /** No id is held twice, within one list or across lists. */
  ghost predicate UniqueIds(s: State) {
    forall l1: Location, l2: Location, i, j ::
      0 <= i < |Holding(s, l1)| && 0 <= j < |Holding(s, l2)| && Holding(s, l1)[i].id == Holding(s, l2)[j].id
      ==> l1 == l2 && i == j
  }

  /** A record the game can hold: its players are seated and its id has been handed out. */
  predicate Admissible(s: State, x: Entity) {
    SeatedIn(x.owner, s.PlayerCount()) && SeatedIn(x.createdBy, s.PlayerCount()) && x.id < s.nextId
  }

  ghost predicate Registered(s: State) {
    forall loc: Location, i :: 0 <= i < |Holding(s, loc)| ==> Admissible(s, Holding(s, loc)[i])
  }

  ghost predicate Structure(s: State) {
    s.board.Valid() && Located(s) && UniqueIds(s) && Registered(s)
  }

  ghost predicate Layering(s: State) {
    forall c :: c in s.board.tiles ==> Layered(s.board.tiles[c])
  }

  /** Everything on the board was put there by game.place, which sets the owner. */
  ghost predicate BoardOwned(s: State) {
    forall c, i :: 0 <= i < |Holding(s, OnTile(c))| ==> Holding(s, OnTile(c))[i].owner.Some?
  }

  ghost predicate Coherent(s: State) {
    Structure(s) && Layering(s) && BoardOwned(s)
  }

  ghost predicate Absent(s: State, id: EntityId) {
    forall l: Location, i :: 0 <= i < |Holding(s, l)| ==> Holding(s, l)[i].id != id
  }

  /** The game holds this very record, in the list its location names. */
  ghost predicate Holds(s: State, e: Entity) {
    exists i :: 0 <= i < |Holding(s, e.location)| && Holding(s, e.location)[i] == e
  }

  function Omit(items: seq<Entity>, k: nat): (r: seq<Entity>)
    requires k < |items|
    ensures |r| == |items| - 1
    ensures forall i :: 0 <= i < |r| ==> r[i] == if i < k then items[i] else items[i + 1]
  {
    items[..k] + items[k + 1..]
  }

  // ---------------------------------------------------------------------------------------
  // Taking a record out and putting one in

  /** The invariant only depends on what the lists hold. */
  lemma StructureByHolding(s: State, t: State)
    requires Structure(s) && t.board.Valid()
    requires t.PlayerCount() == s.PlayerCount() && t.nextId == s.nextId
    requires forall l :: Holding(t, l) == Holding(s, l)
    ensures Structure(t)
  {
  }

  /** list.remove finds a held record at its own position, and it is then gone from the game. */
  lemma DetachHeld(s: State, e: Entity, k: nat)
    requires Structure(s) && Replaceable(s, e.location)
    requires k < |Holding(s, e.location)| && Holding(s, e.location)[k].id == e.id
    ensures Detach(s, e) == Ok(Store(s, e.location, Omit(Holding(s, e.location), k)))
    ensures Structure(Detach(s, e).value) && Absent(Detach(s, e).value, e.id)
  {
    var H := Holding(s, e.location);
    assert IndexOfId(H, e.id) == k;
    assert RemoveEntity(H, e.id).value == Omit(H, k);
    OmitKeepsStructure(s, e.location, k);
    OmitLeavesIdAbsent(s, e.location, k);
  }

  /** The position a record of the shortened list had before. */
  function Before(s: State, L: Location, k: nat, l: Location, i: nat): nat {
    if l == L && i >= k then i + 1 else i
  }

  /** Where a record of the shortened list stood before. */
  lemma OmitAt(s: State, L: Location, k: nat, l: Location, i: nat)
    requires Replaceable(s, L) && k < |Holding(s, L)|
    requires i < |Holding(Store(s, L, Omit(Holding(s, L), k)), l)|
    ensures Before(s, L, k, l, i) < |Holding(s, l)| && (l == L ==> Before(s, L, k, l, i) != k)
    ensures Holding(Store(s, L, Omit(Holding(s, L), k)), l)[i] == Holding(s, l)[Before(s, L, k, l, i)]
  {
  }

  lemma OmitKeepsStructure(s: State, L: Location, k: nat)
    requires Structure(s) && Replaceable(s, L) && k < |Holding(s, L)|
    ensures Structure(Store(s, L, Omit(Holding(s, L), k)))
  {
    OmitKeepsUnique(s, L, k);
    OmitKeepsLocated(s, L, k);
  }

  lemma OmitKeepsUnique(s: State, L: Location, k: nat)
    requires Structure(s) && Replaceable(s, L) && k < |Holding(s, L)|
    ensures UniqueIds(Store(s, L, Omit(Holding(s, L), k)))
  {
    var t := Store(s, L, Omit(Holding(s, L), k));
    forall l1: Location, l2: Location, i1, j1 |
      0 <= i1 < |Holding(t, l1)| && 0 <= j1 < |Holding(t, l2)| && Holding(t, l1)[i1].id == Holding(t, l2)[j1].id
      ensures l1 == l2 && i1 == j1
    {
      OmitAt(s, L, k, l1, i1);
      OmitAt(s, L, k, l2, j1);
    }
  }

  lemma OmitKeepsLocated(s: State, L: Location, k: nat)
    requires Structure(s) && Replaceable(s, L) && k < |Holding(s, L)|
    ensures Located(Store(s, L, Omit(Holding(s, L), k))) && Registered(Store(s, L, Omit(Holding(s, L), k)))
  {
    var t := Store(s, L, Omit(Holding(s, L), k));
    forall l: Location, i1 | 0 <= i1 < |Holding(t, l)|
      ensures Holding(t, l)[i1].location == l && Admissible(t, Holding(t, l)[i1])
    {
      OmitAt(s, L, k, l, i1);
    }
  }

  lemma OmitLeavesIdAbsent(s: State, L: Location, k: nat)
    requires Structure(s) && Replaceable(s, L) && k < |Holding(s, L)|
    ensures Absent(Store(s, L, Omit(Holding(s, L), k)), Holding(s, L)[k].id)
  {
    var t := Store(s, L, Omit(Holding(s, L), k));
    forall l: Location, i1 | 0 <= i1 < |Holding(t, l)| ensures Holding(t, l)[i1].id != Holding(s, L)[k].id {
      OmitAt(s, L, k, l, i1);
    }
  }

  /** Appending a record whose id is not held keeps the invariant. */
  lemma AddFresh(t: State, x: Entity)
    requires Structure(t) && Replaceable(t, x.location)
    requires Absent(t, x.id) && Admissible(t, x)
    ensures Structure(Store(t, x.location, Holding(t, x.location) + [x]))
  {
    var L := x.location;
    var u := Store(t, L, Holding(t, L) + [x]);
    var n := |Holding(t, L)|;
    forall l: Location, i | 0 <= i < |Holding(u, l)|
      ensures Holding(u, l)[i].location == l && Admissible(u, Holding(u, l)[i])
    {
      if !(l == L && i == n) {
        assert Holding(u, l)[i] == Holding(t, l)[i];
      }
    }
    forall l1: Location, l2: Location, i, j |
      0 <= i < |Holding(u, l1)| && 0 <= j < |Holding(u, l2)| && Holding(u, l1)[i].id == Holding(u, l2)[j].id
      ensures l1 == l2 && i == j
    {
      var new1 := l1 == L && i == n;
      var new2 := l2 == L && j == n;
      if !new1 {
        assert Holding(u, l1)[i] == Holding(t, l1)[i];
      }
      if !new2 {
        assert Holding(u, l2)[j] == Holding(t, l2)[j];
      }
    }
  }

  /** A record the game holds sits in a list the game can replace. */
  lemma HeldIsReplaceable(s: State, e: Entity)
    requires Holds(s, e)
    ensures Replaceable(s, e.location)
  {
  }

  /** Removing entities from a tile never adds a layer. */
  lemma OmitKeepsLayers(items: seq<Entity>, k: nat, layer: Layer)
    requires k < |items| && !HasLayer(items, layer)
    ensures !HasLayer(Omit(items, k), layer)
  {
  }

  // ---------------------------------------------------------------------------------------
  // Placing and moving

  /** The common step of game.place and game.move: a held record leaves its list and goes on
      top of another tile. The record appended may differ from the held one in its owner only
      (game.place sets the owner first). */
  function Transferred(s: State, e: Entity, k: nat, owner: Option<PlayerId>, c: Coordinate): (r: State)
    requires Replaceable(s, e.location) && k < |Holding(s, e.location)| && e.location != OnTile(c)
    ensures r.PlayerCount() == s.PlayerCount() && r.nextId == s.nextId && r.turn == s.turn
    ensures forall l :: Holding(r, l) == Transfer(s, e, k, owner, c, l)
  {
    var t := Store(s, e.location, Omit(Holding(s, e.location), k));
    Store(t, OnTile(c), Holding(t, OnTile(c)) + [e.(owner := owner, location := OnTile(c))])
  }

  /** What each list holds after the transfer. */
  function Transfer(s: State, e: Entity, k: nat, owner: Option<PlayerId>, c: Coordinate, l: Location): seq<Entity>
    requires k < |Holding(s, e.location)|
  {
    if l == OnTile(c) then Holding(s, l) + [e.(owner := owner, location := OnTile(c))]
    else if l == e.location then Omit(Holding(s, l), k)
    else Holding(s, l)
  }

  /** When the tile admits the record, the two steps of the effect are that transfer. */
  lemma TransferIsEffect(s: State, e: Entity, k: nat, owner: Option<PlayerId>, c: Coordinate)
    requires Structure(s) && Replaceable(s, e.location)
    requires k < |Holding(s, e.location)| && Holding(s, e.location)[k] == e
    requires e.location != OnTile(c) && CanAdd(TileAt(s.board, c).entities, e).Pass?
    ensures var x := e.(owner := owner);
      && Detach(s, x).Ok? && TileAppend(Detach(s, x).value.board, c, x, true).Ok?
      && Detach(s, x).value.(board := TileAppend(Detach(s, x).value.board, c, x, true).value)
         == Transferred(s, e, k, owner, c)
  {
    var x := e.(owner := owner);
    DetachHeld(s, x, k);
    var t := Detach(s, x).value;
    assert Holding(t, OnTile(c)) == Holding(s, OnTile(c));
  }

  /** The transfer keeps the invariant when the tile admits the record and, if the record
      leaves a tile, it is a PIECE-layer one. */
  lemma TransferKeeps(s: State, e: Entity, k: nat, owner: Option<PlayerId>, c: Coordinate)
    requires Coherent(s) && Replaceable(s, e.location)
    requires k < |Holding(s, e.location)| && Holding(s, e.location)[k] == e
    requires e.location != OnTile(c) && CanAdd(TileAt(s.board, c).entities, e).Pass?
    requires e.location.OnTile? ==> e.LayerOf() == Layer.Piece
    requires owner.Some? && SeatedIn(owner, s.PlayerCount())
    ensures Coherent(Transferred(s, e, k, owner, c))
  {
    var x := e.(owner := owner);
    DetachHeld(s, x, k);
    var t := Store(s, e.location, Omit(Holding(s, e.location), k));
    AddFresh(t, x.(location := OnTile(c)));
    TransferLayering(s, e, k, owner, c);
    TransferOwned(s, e, k, owner, c);
  }

  lemma TransferOwned(s: State, e: Entity, k: nat, owner: Option<PlayerId>, c: Coordinate)
    requires BoardOwned(s) && Replaceable(s, e.location)
    requires k < |Holding(s, e.location)| && e.location != OnTile(c) && owner.Some?
    ensures BoardOwned(Transferred(s, e, k, owner, c))
  {
    var after := Transferred(s, e, k, owner, c);
    forall d, i | 0 <= i < |Holding(after, OnTile(d))| ensures Holding(after, OnTile(d))[i].owner.Some? {
      assert Holding(after, OnTile(d)) == Transfer(s, e, k, owner, c, OnTile(d));
      TransferTileOwned(s, e, k, owner, c, d);
    }
  }

  /** Each tile after the transfer holds owned records only. */
  lemma TransferTileOwned(s: State, e: Entity, k: nat, owner: Option<PlayerId>, c: Coordinate, d: Coordinate)
    requires BoardOwned(s) && k < |Holding(s, e.location)| && owner.Some?
    ensures forall i :: 0 <= i < |Transfer(s, e, k, owner, c, OnTile(d))| ==> Transfer(s, e, k, owner, c, OnTile(d))[i].owner.Some?
  {
    var t := Transfer(s, e, k, owner, c, OnTile(d));
    var h := Holding(s, OnTile(d));
    forall i | 0 <= i < |t| ensures t[i].owner.Some? {
      if d != c && OnTile(d) == e.location {
        assert t[i] == h[if i < k then i else i + 1];
      } else if d != c {
        assert t[i] == h[i];
      } else if i < |h| {
        assert t[i] == h[i];
      }
    }
  }


  lemma TransferLayering(s: State, e: Entity, k: nat, owner: Option<PlayerId>, c: Coordinate)
    requires Structure(s) && Layering(s) && Replaceable(s, e.location)
    requires k < |Holding(s, e.location)| && Holding(s, e.location)[k] == e
    requires e.location != OnTile(c) && CanAdd(TileAt(s.board, c).entities, e).Pass?
    requires e.location.OnTile? ==> e.LayerOf() == Layer.Piece
    ensures Layering(Transferred(s, e, k, owner, c))
  {
    var after := Transferred(s, e, k, owner, c);
    forall d | d in after.board.tiles ensures Layered(after.board.tiles[d]) {
      assert after.board.tiles[d] == Holding(after, OnTile(d));
      TransferTileLayered(s, e, k, owner, c, d);
    }
  }

  /** Each tile after the transfer is layered: the target gains what can_add admits, the
      source tile loses a PIECE-layer entity, and the others are as they were. */
  lemma TransferTileLayered(s: State, e: Entity, k: nat, owner: Option<PlayerId>, c: Coordinate, d: Coordinate)
    requires Layering(s)
    requires k < |Holding(s, e.location)| && Holding(s, e.location)[k] == e
    requires e.location != OnTile(c) && CanAdd(TileAt(s.board, c).entities, e).Pass?
    requires e.location.OnTile? ==> e.LayerOf() == Layer.Piece
    ensures Layered(Transfer(s, e, k, owner, c, OnTile(d)))
  {
    if d == c {
      CanAddKeepsLayered(TileAt(s.board, c).entities, e, e.(owner := owner, location := OnTile(c)));
    } else if OnTile(d) == e.location {
      assert d in s.board.tiles;
      RemovingPieceLayerKeepsLayered(s.board.tiles[d], k);
    } else if d in s.board.tiles {
      assert Holding(s, OnTile(d)) == s.board.tiles[d];
    }
  }


  /** A record already on the target tile occupies its own layer there. */
  lemma SelfOccupies(s: State, e: Entity, k: nat, c: Coordinate)
    requires k < |Holding(s, OnTile(c))| && Holding(s, OnTile(c))[k] == e
    ensures CanAdd(TileAt(s.board, c).entities, e).Fail?
  {
    CanAddFailsIff(TileAt(s.board, c).entities, e);
  }

  /** game.move's effect on a held record the target admits is the transfer. */
  lemma MoveEffectIsTransfer(s: State, e: Entity, k: nat, c: Coordinate)
    requires Structure(s) && Replaceable(s, e.location)
    requires k < |Holding(s, e.location)| && Holding(s, e.location)[k] == e
    requires CanAdd(TileAt(s.board, c).entities, e).Pass?
    ensures e.location != OnTile(c)
    ensures MoveEffect(s, e, c) == Outcome(Transferred(s, e, k, e.owner, c), None)
  {
    if e.location == OnTile(c) {
      SelfOccupies(s, e, k, c);
    }
    TransferIsEffect(s, e, k, e.owner, c);
    assert e.(owner := e.owner) == e;
  }

  /** game.place's effect: the same transfer, with the placing player as owner. */
  lemma PlaceEffectIsTransfer(s: State, e: Entity, k: nat, c: Coordinate, p: PlayerId)
    requires Structure(s) && Replaceable(s, e.location)
    requires k < |Holding(s, e.location)| && Holding(s, e.location)[k] == e
    requires CanAdd(TileAt(s.board, c).entities, e).Pass?
    ensures e.location != OnTile(c)
    ensures PlaceEffect(s, e, c, p) == Outcome(Transferred(s, e, k, Some(p), c), None)
  {
    if e.location == OnTile(c) {
      SelfOccupies(s, e, k, c);
    }
    TransferIsEffect(s, e, k, Some(p), c);
  }

  // ---------------------------------------------------------------------------------------
  // The copy a simulation runs on

  lemma ReloadIdentity(items: seq<Entity>, into: Location, n: nat)
    requires forall i :: 0 <= i < |items| ==> items[i].location == into
    requires forall i :: 0 <= i < |items| ==> SeatedIn(items[i].owner, n) && SeatedIn(items[i].createdBy, n)
    ensures Reload(items, into, n) == items
  {
    forall i | 0 <= i < |items| ensures Reload(items, into, n)[i] == items[i] {
      LookupPlayerName(n, items[i].owner);
      LookupPlayerName(n, items[i].createdBy);
    }
  }

  /** Copying a well-formed game through JSON gives the same game back. */
  lemma CopyIsIdentity(s: State)
    requires Structure(s)
    ensures CopyGame(s) == s
  {
    var n := s.PlayerCount();
    forall p | 0 <= p < n ensures Reload(s.stashes[p], PersonalStash(p), n) == s.stashes[p] {
      HoldingReloads(s, PersonalStash(p));
    }
    forall c | c in s.board.tiles ensures Reload(s.board.tiles[c], OnTile(c), n) == s.board.tiles[c] {
      HoldingReloads(s, OnTile(c));
    }
    HoldingReloads(s, CommunityPool);
    HoldingReloads(s, Graveyard);
    assert CopyGame(s).stashes == s.stashes;
    assert CopyGame(s).board.tiles == s.board.tiles;
  }

  lemma HoldingReloads(s: State, loc: Location)
    requires Structure(s)
    ensures Reload(Holding(s, loc), loc, s.PlayerCount()) == Holding(s, loc)
  {
    var items := Holding(s, loc);
    assert forall i :: 0 <= i < |items| ==> Admissible(s, items[i]);
    ReloadIdentity(items, loc, s.PlayerCount());
  }

  /** On a layered tile the only record of an owned entity's class is the entity itself, so
      get_equivalent_entity returns it. */
  lemma TileEquivalent(items: seq<Entity>, k: nat)
    requires DistinctLayers(items) && k < |items| && items[k].owner.Some?
    ensures EquivalentEntity(items, items[k]) == Ok(Some(items[k]))
  {
    var e := items[k];
    var r := EquivalentEntity(items, e);
    assert SameSpot(items[k], e);
    if r.Ok? && r.value.Some? {
      var i :| 0 <= i < |items| && items[i] == r.value.value && Equivalent(items[i], e)
        && forall j :: 0 <= j < i ==> !Equivalent(items[j], e);
      assert items[i].LayerOf() == e.LayerOf();
    }
  }

  /** Board.get_equivalent_entity over some of the keys, for a record held at c. */
  lemma {:induction false} BoardSearch(s: State, e: Entity, c: Coordinate, k: nat, keys: seq<Coordinate>)
    requires Coherent(s) && k < |Holding(s, OnTile(c))| && Holding(s, OnTile(c))[k] == e
    ensures BoardEquivalent(s.board, keys, e) == if c in keys then Ok(Some(e)) else Ok(None)
    decreases |keys|
  {
    if |keys| > 0 {
      var d := keys[0];
      var items := TileAt(s.board, d).entities;
      assert forall x :: x in keys <==> x == d || x in keys[1..];
      if d == c {
        assert c in s.board.tiles;
        TileEquivalent(items, k);
      } else {
        assert items == Holding(s, OnTile(d));
        assert forall i :: 0 <= i < |items| ==> items[i].location == OnTile(d);
        assert forall i :: 0 <= i < |items| ==> !SameSpot(items[i], e);
        BoardSearch(s, e, c, k, keys[1..]);
      }
    }
  }

  /** get_equivalent finds an entity of the board as itself. */
  lemma EquivalentOnBoard(s: State, e: Entity, c: Coordinate, k: nat)
    requires Coherent(s) && k < |Holding(s, OnTile(c))| && Holding(s, OnTile(c))[k] == e
    ensures GetEquivalent(s, e) == Ok(Some(e))
  {
    BoardSearch(s, e, c, k, s.board.keys);
  }

  // ---------------------------------------------------------------------------------------
  // Capturing

  /** The victim is a record of the target tile. */
  lemma VictimIsHeld(s: State, c: Coordinate)
    requires Victim(s, c).Some?
    ensures exists k :: 0 <= k < |Holding(s, OnTile(c))| && Holding(s, OnTile(c))[k] == Victim(s, c).value
    ensures Victim(s, c).value.kind.IsPiece()
  {
    var items := TileAt(s.board, c).entities;
    var pieces := Selected(items, OfType(AnyPiece));
    SelectedMembers(items, OfType(AnyPiece));
    assert pieces[0] in pieces;
    assert MatchesAll(pieces[0], OfType(AnyPiece));
    assert IsInstance(pieces[0].kind, AnyPiece);
    var k :| 0 <= k < |items| && items[k] == pieces[0];
    assert Holding(s, OnTile(c))[k] == Victim(s, c).value;
  }

  /** What each list holds once the record at position k of tile c has gone to the graveyard. */
  function Captured(s: State, c: Coordinate, k: nat, l: Location): seq<Entity>
    requires k < |Holding(s, OnTile(c))|
  {
    if l == OnTile(c) then Omit(Holding(s, l), k)
    else if l == Graveyard then s.graveyard + [Holding(s, OnTile(c))[k].(location := Graveyard)]
    else Holding(s, l)
  }

  /** game.capture's effect: the victim leaves its tile (the key goes when the tile empties)
      and is last in the graveyard; nothing else changes. */
  lemma CaptureIsEffect(s: State, c: Coordinate, k: nat)
    requires Structure(s) && k < |Holding(s, OnTile(c))| && Victim(s, c) == Some(Holding(s, OnTile(c))[k])
    ensures CaptureEffect(s, c).raised.None?
    ensures var after := CaptureEffect(s, c).state;
      && after.board.Valid() && after.PlayerCount() == s.PlayerCount() && after.nextId == s.nextId
      && after.turn == s.turn
      && forall l :: Holding(after, l) == Captured(s, c, k, l)
  {
    var H := Holding(s, OnTile(c));
    var v := H[k];
    RemoveVictim(s, c, k);
    var b := Remove(s.board, v).value;
    var after := s.(graveyard := Append(s.graveyard, v, Graveyard, true), board := b);
    assert CaptureEffect(s, c) == Outcome(after, None);
    assert after.graveyard == s.graveyard + [v.(location := Graveyard)];
    CapturedHoldings(s, c, k, b);
  }

  /** The lists of the game once the k-th entity at c is off its tile and last in the
      graveyard. */
  lemma CapturedHoldings(s: State, c: Coordinate, k: nat, b: Board)
    requires k < |Holding(s, OnTile(c))| && TileAt(b, c).entities == Omit(Holding(s, OnTile(c)), k)
    requires forall e :: e != c ==> TileAt(b, e) == TileAt(s.board, e)
    ensures var after := s.(graveyard := s.graveyard + [Holding(s, OnTile(c))[k].(location := Graveyard)], board := b);
      forall l :: Holding(after, l) == Captured(s, c, k, l)
  {
    var after := s.(graveyard := s.graveyard + [Holding(s, OnTile(c))[k].(location := Graveyard)], board := b);
    forall l ensures Holding(after, l) == Captured(s, c, k, l) {
      match l {
        case OnTile(e) =>
          if e != c {
            assert TileAt(b, e) == TileAt(s.board, e);
          }
        case _ =>
      }
    }
  }

  /** Board.remove of the k-th entity of the tile at c: it succeeds, keeps the board valid,
      leaves the tile without it and every other tile as it was. */
  lemma RemoveVictim(s: State, c: Coordinate, k: nat)
    requires Structure(s) && k < |Holding(s, OnTile(c))| && Victim(s, c) == Some(Holding(s, OnTile(c))[k])
    ensures Remove(s.board, Holding(s, OnTile(c))[k]).Ok?
    ensures var b := Remove(s.board, Holding(s, OnTile(c))[k]).value;
      && b.Valid() && TileAt(b, c).entities == Omit(Holding(s, OnTile(c)), k)
      && forall e :: e != c ==> TileAt(b, e) == TileAt(s.board, e)
  {
    var H := Holding(s, OnTile(c));
    var v := H[k];
    assert c in s.board.tiles && c in s.board.keys && s.board.tiles[c] == H;
    assert ContainsId(s.board.tiles[c], v.id);
    var r := Remove(s.board, v);
    assert r.Ok?;
    var d := CoordinateOfEntity(s.board, v.id).value;
    var j := IndexOfId(s.board.tiles[d], v.id);
    assert Holding(s, OnTile(d)) == s.board.tiles[d];
    assert Holding(s, OnTile(d))[j].id == Holding(s, OnTile(c))[k].id;
    assert d == c;
    assert IndexOfId(H, v.id) == k;
    assert RemoveEntity(H, v.id).value == Omit(H, k);
    assert r.value.Valid();
  }


  /** A state holding what a capture leaves has the structure: the victim's id leaves the
      board and comes back once, in the graveyard. */
  lemma CapturedStructure(s: State, c: Coordinate, k: nat, after: State)
    requires Structure(s) && k < |Holding(s, OnTile(c))|
    requires after.board.Valid() && after.PlayerCount() == s.PlayerCount() && after.nextId == s.nextId
    requires forall l :: Holding(after, l) == Captured(s, c, k, l)
    ensures Structure(after)
  {
    var H := Holding(s, OnTile(c));
    var t := Store(s, OnTile(c), Omit(H, k));
    var v' := H[k].(location := Graveyard);
    OmitKeepsStructure(s, OnTile(c), k);
    OmitLeavesIdAbsent(s, OnTile(c), k);
    assert Admissible(s, H[k]);
    AddFresh(t, v');
    var u := Store(t, Graveyard, Holding(t, Graveyard) + [v']);
    StructureByHolding(u, after);
  }

  lemma CaptureStructure(s: State, c: Coordinate, k: nat)
    requires Structure(s) && k < |Holding(s, OnTile(c))| && Victim(s, c) == Some(Holding(s, OnTile(c))[k])
    ensures Structure(CaptureEffect(s, c).state)
  {
    CaptureIsEffect(s, c, k);
    CapturedStructure(s, c, k, CaptureEffect(s, c).state);
  }

  /** A state holding what the capture of a PIECE-layer record leaves is coherent. */
  lemma CapturedCoherent(s: State, c: Coordinate, k: nat, after: State)
    requires Coherent(s) && k < |Holding(s, OnTile(c))| && Holding(s, OnTile(c))[k].LayerOf() == Layer.Piece
    requires after.board.Valid() && after.PlayerCount() == s.PlayerCount() && after.nextId == s.nextId
    requires forall l :: Holding(after, l) == Captured(s, c, k, l)
    ensures Coherent(after)
  {
    CapturedStructure(s, c, k, after);
    var H := Holding(s, OnTile(c));
    forall d | d in after.board.tiles ensures Layered(after.board.tiles[d]) {
      assert after.board.tiles[d] == Holding(after, OnTile(d)) == Captured(s, c, k, OnTile(d));
      if d == c {
        RemovingPieceLayerKeepsLayered(H, k);
      } else if d in s.board.tiles {
        assert after.board.tiles[d] == s.board.tiles[d];
      } else {
        assert after.board.tiles[d] == [];
      }
    }
    forall d, i | 0 <= i < |Holding(after, OnTile(d))| ensures Holding(after, OnTile(d))[i].owner.Some? {
      assert Holding(after, OnTile(d)) == Captured(s, c, k, OnTile(d));
      if d == c {
        assert Holding(after, OnTile(d))[i] == H[if i < k then i else i + 1];
      } else {
        assert Holding(after, OnTile(d))[i] == Holding(s, OnTile(d))[i];
      }
    }
  }

  /** Capturing a PIECE-layer victim keeps the invariant. */
  lemma CaptureKeeps(s: State, c: Coordinate, k: nat)
    requires Coherent(s) && k < |Holding(s, OnTile(c))| && Victim(s, c) == Some(Holding(s, OnTile(c))[k])
    requires Holding(s, OnTile(c))[k].LayerOf() == Layer.Piece
    ensures Coherent(CaptureEffect(s, c).state)
  {
    CaptureIsEffect(s, c, k);
    CapturedCoherent(s, c, k, CaptureEffect(s, c).state);
  }

  // ---------------------------------------------------------------------------------------
  // Capturing and moving in: Bird.capture and Knight.capture

  /** Once the only TERRAIN record of a tile is gone, no PIECE-layer record can be added. */
  lemma TerrainGoneBlocks(items: seq<Entity>, k: nat, a: Entity)
    requires DistinctLayers(items) && k < |items| && items[k].LayerOf() == Layer.Terrain
    requires a.LayerOf() == Layer.Piece
    ensures CanAdd(Omit(items, k), a).Fail?
  {
    var r := Omit(items, k);
    forall i | 0 <= i < |r| ensures r[i].LayerOf() != Layer.Terrain {
      assert r[i] == items[if i < k then i else i + 1];
    }
    CanAddFailsIff(r, a);
  }

  /** game.move of a held record raises unless the target, as it stands before the record
      leaves its list, admits it. */
  lemma MoveNeedsAdmission(s: State, e: Entity, k: nat, c: Coordinate)
    requires Structure(s) && k < |Holding(s, e.location)| && Holding(s, e.location)[k] == e
    requires e.location != OnTile(c)
    ensures MoveEffect(s, e, c).raised.None? ==> CanAdd(TileAt(s.board, c).entities, e).Pass?
  {
    assert Replaceable(s, e.location);
    DetachHeld(s, e, k);
    var s1 := Store(s, e.location, Omit(Holding(s, e.location), k));
    assert Holding(s1, OnTile(c)) == Holding(s, OnTile(c));
  }

  /** A PIECE-layer record cannot be moved onto a tile without TERRAIN, wherever it starts. */
  lemma MoveNeedsTerrain(s: State, e: Entity, k: nat, c: Coordinate)
    requires Structure(s) && k < |Holding(s, e.location)| && Holding(s, e.location)[k] == e
    requires e.LayerOf() == Layer.Piece && !HasLayer(TileAt(s.board, c).entities, Layer.Terrain)
    ensures MoveEffect(s, e, c).raised.Some?
  {
    assert Replaceable(s, e.location);
    DetachHeld(s, e, k);
    var s1 := Store(s, e.location, Omit(Holding(s, e.location), k));
    var T := Holding(s1, OnTile(c));
    forall i | 0 <= i < |T| ensures T[i].LayerOf() != Layer.Terrain {
      if e.location == OnTile(c) {
        assert T[i] == Holding(s, OnTile(c))[if i < k then i else i + 1];
      } else {
        assert T[i] == Holding(s, OnTile(c))[i];
      }
    }
    assert TileAt(s1.board, c).entities == T;
  }

  /** Where the attacker is once the victim has gone to the graveyard: in its own list (one
      place earlier when it stood behind the victim), or, when it captured itself, last in
      the graveyard. When the victim is a PIECE-layer record the attacker is not on the
      target tile, which held only one PIECE. */
  lemma AttackerHeld(s: State, e: Entity, k: nat, c: Coordinate, kv: nat) returns (ka: nat)
    requires Structure(s) && Layering(s) && k < |Holding(s, e.location)| && Holding(s, e.location)[k] == e
    requires e.LayerOf() == Layer.Piece
    requires kv < |Holding(s, OnTile(c))| && Victim(s, c) == Some(Holding(s, OnTile(c))[kv])
    ensures ka < |Captured(s, c, kv, Attacker(s, e, c).location)|
    ensures Captured(s, c, kv, Attacker(s, e, c).location)[ka] == Attacker(s, e, c)
    ensures Holding(s, OnTile(c))[kv].LayerOf() == Layer.Piece ==> Attacker(s, e, c).location != OnTile(c)
  {
    var H := Holding(s, OnTile(c));
    var v := H[kv];
    if v.id == e.id {
      assert e.location == OnTile(c) && kv == k;
      ka := |s.graveyard|;
    } else if e.location == OnTile(c) {
      assert k != kv;
      assert Layered(s.board.tiles[c]);
      ka := if k < kv then k else k - 1;
    } else {
      ka := k;
    }
  }

  /** After a TERRAIN victim has gone, moving a PIECE-layer attacker onto its tile raises. */
  lemma TerrainCaptureBlocks(s: State, c: Coordinate, kv: nat, after: State, a: Entity, ka: nat)
    requires kv < |Holding(s, OnTile(c))| && DistinctLayers(Holding(s, OnTile(c)))
    requires Holding(s, OnTile(c))[kv].LayerOf() == Layer.Terrain
    requires Structure(after) && forall l :: Holding(after, l) == Captured(s, c, kv, l)
    requires a.LayerOf() == Layer.Piece && ka < |Holding(after, a.location)| && Holding(after, a.location)[ka] == a
    ensures MoveEffect(after, a, c).raised.Some?
  {
    var H := Holding(s, OnTile(c));
    TerrainGoneBlocks(H, kv, a);
    assert TileAt(after.board, c).entities == Holding(after, OnTile(c)) == Omit(H, kv);
    CanAddFailsIff(Omit(H, kv), a);
    MoveNeedsTerrain(after, a, ka, c);
  }

  /** A capture whose follow-up move succeeds took a PIECE-layer victim: with a Turtle gone
      the tile has no TERRAIN left for the attacker. */
  lemma AttackTookPiece(s: State, e: Entity, k: nat, c: Coordinate, kv: nat)
    requires Structure(s) && Layering(s) && k < |Holding(s, e.location)| && Holding(s, e.location)[k] == e
    requires e.LayerOf() == Layer.Piece
    requires kv < |Holding(s, OnTile(c))| && Victim(s, c) == Some(Holding(s, OnTile(c))[kv])
    ensures AttackEffect(s, e, c).raised.None? ==> Holding(s, OnTile(c))[kv].LayerOf() == Layer.Piece
  {
    if Holding(s, OnTile(c))[kv].LayerOf() == Layer.Terrain {
      CaptureIsEffect(s, c, kv);
      CaptureStructure(s, c, kv);
      var ka := AttackerHeld(s, e, k, c, kv);
      assert Layered(s.board.tiles[c]);
      TerrainCaptureBlocks(s, c, kv, CaptureEffect(s, c).state, Attacker(s, e, c), ka);
    }
  }

  /** Bird.capture and Knight.capture, when they complete, keep the invariant. */
  lemma AttackEffectKeeps(s: State, e: Entity, k: nat, c: Coordinate)
    requires Coherent(s) && k < |Holding(s, e.location)| && Holding(s, e.location)[k] == e
    requires e.LayerOf() == Layer.Piece && e.owner.Some?
    requires AttackEffect(s, e, c).raised.None?
    ensures Coherent(AttackEffect(s, e, c).state)
  {
    var H := Holding(s, OnTile(c));
    assert CaptureEffect(s, c).raised.None?;
    VictimIsHeld(s, c);
    var kv :| 0 <= kv < |H| && H[kv] == Victim(s, c).value;
    AttackTookPiece(s, e, k, c, kv);
    var ka := AttackerHeld(s, e, k, c, kv);
    CaptureIsEffect(s, c, kv);
    CaptureKeeps(s, c, kv);
    var after := CaptureEffect(s, c).state;
    var a := Attacker(s, e, c);
    MoveNeedsAdmission(after, a, ka, c);
    MoveEffectIsTransfer(after, a, ka, c);
    TransferKeeps(after, a, ka, a.owner, c);
  }

  // ---------------------------------------------------------------------------------------
  // Finding an entity off the board, and what a simulation computes

  /** get_equivalent_entity finds the record itself when every other record at the same spot
      has another owner. */
  lemma {:induction false} ListEquivalent(items: seq<Entity>, k: nat)
    requires k < |items| && items[k].owner.Some?
    requires forall i :: 0 <= i < |items| && i != k && SameSpot(items[i], items[k]) ==>
      items[i].owner.Some? && items[i].owner != items[k].owner
    ensures EquivalentEntity(items, items[k]) == Ok(Some(items[k]))
    decreases k
  {
    var e := items[k];
    if k > 0 {
      assert !Equivalent(items[0], e);
      var rest := items[1..];
      assert rest[k - 1] == e;
      forall i | 0 <= i < |rest| && i != k - 1 && SameSpot(rest[i], e)
        ensures rest[i].owner.Some? && rest[i].owner != e.owner
      {
        assert rest[i] == items[i + 1];
      }
      ListEquivalent(rest, k - 1);
    }
  }

  /** The search over the stashes, player by player, for a record of stash p. */
  lemma {:induction false} StashSearch(stashes: seq<seq<Entity>>, p: nat, k: nat)
    requires p < |stashes| && k < |stashes[p]| && stashes[p][k].owner.Some?
    requires forall q, i :: (0 <= q < |stashes| && 0 <= i < |stashes[q]| && (q, i) != (p, k)
      && SameSpot(stashes[q][i], stashes[p][k])) ==> stashes[q][i].owner.Some? && stashes[q][i].owner != stashes[p][k].owner
    ensures StashEquivalent(stashes, stashes[p][k]) == Ok(Some(stashes[p][k]))
    decreases p
  {
    var e := stashes[p][k];
    if p == 0 {
      ListEquivalent(stashes[0], k);
    } else {
      assert forall i :: 0 <= i < |stashes[0]| && SameSpot(stashes[0][i], e) ==>
        stashes[0][i].owner.Some? && e.owner.Some? && stashes[0][i].owner != e.owner;
      assert EquivalentEntity(stashes[0], e) == Ok(None);
      var rest := stashes[1..];
      assert rest[p - 1] == stashes[p];
      forall q, i | 0 <= q < |rest| && 0 <= i < |rest[q]| && (q, i) != (p - 1, k) && SameSpot(rest[q][i], e)
        ensures rest[q][i].owner.Some? && rest[q][i].owner != e.owner
      {
        assert rest[q] == stashes[q + 1];
      }
      StashSearch(rest, p - 1, k);
    }
  }

  /** No record on the board is at the spot of a record off it. */
  lemma {:induction false} BoardSearchOff(s: State, e: Entity, keys: seq<Coordinate>)
    requires Located(s) && !e.location.OnTile?
    ensures BoardEquivalent(s.board, keys, e) == Ok(None)
    decreases |keys|
  {
    if |keys| > 0 {
      var items := TileAt(s.board, keys[0]).entities;
      assert items == Holding(s, OnTile(keys[0]));
      assert forall i :: 0 <= i < |items| ==> items[i].location == OnTile(keys[0]);
      BoardSearchOff(s, e, keys[1..]);
    }
  }

  /** get_equivalent finds a stash record as itself when no record off the board at the same
      spot (same class, no coordinate) shares its owner or has none. A citadel of a freshly
      seeded game is such a record. */
  lemma EquivalentInStash(s: State, p: PlayerId, k: nat)
    requires Structure(s) && p < s.PlayerCount() && k < |s.stashes[p]| && s.stashes[p][k].owner.Some?
    requires forall l: Location, i :: (!l.OnTile? && 0 <= i < |Holding(s, l)| && (l, i) != (PersonalStash(p), k)
      && Holding(s, l)[i].kind == s.stashes[p][k].kind) ==>
        Holding(s, l)[i].owner.Some? && Holding(s, l)[i].owner != s.stashes[p][k].owner
    ensures GetEquivalent(s, s.stashes[p][k]) == Ok(Some(s.stashes[p][k]))
  {
    var e := s.stashes[p][k];
    assert Holding(s, PersonalStash(p))[k] == e;
    BoardSearchOff(s, e, s.board.keys);
    assert forall i :: 0 <= i < |s.pool| ==> Holding(s, CommunityPool)[i] == s.pool[i];
    assert EquivalentEntity(s.pool, e) == Ok(None);
    assert forall i :: 0 <= i < |s.graveyard| ==> Holding(s, Graveyard)[i] == s.graveyard[i];
    assert EquivalentEntity(s.graveyard, e) == Ok(None);
    forall q, i | 0 <= q < |s.stashes| && 0 <= i < |s.stashes[q]| && (q, i) != (p, k) && SameSpot(s.stashes[q][i], e)
      ensures s.stashes[q][i].owner.Some? && s.stashes[q][i].owner != e.owner
    {
      assert Holding(s, PersonalStash(q))[i] == s.stashes[q][i];
    }
    StashSearch(s.stashes, p, k);
  }

  /** When get_equivalent finds the entity itself, a simulation computes exactly what the
      unvalidated action does to the game: the copy is the game, and nothing of the live
      game is touched. */
  lemma SimulateIsExecute(s: State, e: Entity, verb: Verb, c: Coordinate, p: PlayerId)
    requires Structure(s) && GetEquivalent(s, e) == Ok(Some(e)) && Offers(e.kind, verb.Name())
    ensures var done := Execute(s, e, verb, c, p);
      Simulate(s, e, verb, c, p) == if done.raised.Some? then Err(done.raised.value) else Ok(done.state)
  {
    CopyIsIdentity(s);
  }

  /** A simulation with an entity the copy does not hold, or of a verb its kind does not
      offer, raises. */
  lemma SimulateNeedsOffer(s: State, e: Entity, verb: Verb, c: Coordinate, p: PlayerId)
    requires Structure(s) && GetEquivalent(s, e) == Ok(Some(e)) && !Offers(e.kind, verb.Name())
    ensures Simulate(s, e, verb, c, p) == Err(KeyError("'" + verb.Name() + "'"))
  {
    CopyIsIdentity(s);
  }

  // ---------------------------------------------------------------------------------------
  // A new game

  /** Ids are handed out as round * n + player, so distinct (round, player) pairs get
      distinct ids. */
  lemma IdsDiffer(q1: nat, p1: nat, q2: nat, p2: nat, n: nat)
    requires p1 < n && p2 < n && q1 * n + p1 == q2 * n + p2
    ensures q1 == q2 && p1 == p2
  {
    ModOfSum(q1 * n + p1, n, q1, p1);
    ModOfSum(q2 * n + p2, n, q2, p2);
    MulSub(q1, q2, n);
    if q1 > q2 {
      MulAtLeast(q1 - q2, n);
    } else if q2 > q1 {
      MulSub(q2, q1, n);
      MulAtLeast(q2 - q1, n);
    }
  }

  lemma IdBelowNext(q: nat, p: nat, lands: nat, n: nat)
    requires p < n && q <= lands
    ensures q * n + p < (lands + 1) * n
  {
    MulSub(lands + 1, q, n);
    MulAtLeast(lands + 1 - q, n);
  }

  /** The position i of stash p of a new game holds the id i * n + p. */
  lemma StartingIds(n: nat, lands: nat, p: PlayerId, i: nat)
    requires p < n && i <= lands
    ensures StartingStash(n, lands, p)[i].id == i * n + p
  {
  }

  /** Game.__init__ builds a coherent game: each stash is lands Lands created by the player
      and without owner, then the player's Citadel; the ids are distinct and below the next
      one; the board, the pool and the graveyard are empty. */
  lemma SeededCoherent(n: nat, lands: int, personal: int, community: int)
    requires n <= MaxPlayers
    ensures Coherent(Seeded(n, lands, personal, community))
    ensures forall p, i :: 0 <= p < n && 0 <= i < Max0(lands) ==>
      Seeded(n, lands, personal, community).stashes[p][i] == Entity(i * n + p, Land, Some(p), None, PersonalStash(p))
    ensures forall p :: 0 <= p < n ==> (|Seeded(n, lands, personal, community).stashes[p]| == Max0(lands) + 1
      && Seeded(n, lands, personal, community).stashes[p][Max0(lands)]
        == Entity(Max0(lands) * n + p, Citadel, Some(p), Some(p), PersonalStash(p)))
  {
    var s := Seeded(n, lands, personal, community);
    var L := Max0(lands);
    forall l1: Location, l2: Location, i, j |
      0 <= i < |Holding(s, l1)| && 0 <= j < |Holding(s, l2)| && Holding(s, l1)[i].id == Holding(s, l2)[j].id
      ensures l1 == l2 && i == j
    {
      var p1, p2 := l1.player, l2.player;
      StartingIds(n, L, p1, i);
      StartingIds(n, L, p2, j);
      IdsDiffer(i, p1, j, p2, n);
    }
    forall l: Location, i | 0 <= i < |Holding(s, l)| ensures Admissible(s, Holding(s, l)[i]) {
      var p := l.player;
      StartingIds(n, L, p, i);
      IdBelowNext(i, p, L, n);
    }
  }
}
