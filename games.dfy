/** The game state of citadel/game.py and the parts of entity.py that act on a whole game:
    the lists entities live in, the unvalidated effects of placing, moving and capturing,
    the JSON copy, get_equivalent and simulate.

    A game is a value. Python entities are objects referred to from the lists that hold them;
    here each list holds entity records, an entity's identity is its id, and its `location`
    names the list it was last appended to. */
module Games {
  import opened Util
  import opened Entities
  import opened Boards
  import opened Connectivity
  import opened Pieces

  datatype State = State(
    landsPerPlayer: int,
    personalPerPlayer: int,
    communityPerPlayer: int,
    citadelsPerPlayer: int,
    stashes: seq<seq<Entity>>,
    board: Board,
    pool: seq<Entity>,
    graveyard: seq<Entity>,
    turn: int,
    nextId: EntityId)
  {
    /** Players are numbered 0 .. PlayerCount() - 1 and named "Player i". */
    function PlayerCount(): nat { |stashes| }
  }

  // ---------------------------------------------------------------------------------------
  // A new game

  /** `_player_rotations` has four entries, so a fifth player cannot be seated. */
  const MaxPlayers: nat := 4

  /** What a player's stash holds at the start: a Land created by the player in each land
      round, then the player's Citadel. Ids are handed out in the order the constructor
      creates the entities: round by round, player by player. */
  function StartingStash(n: nat, lands: nat, p: PlayerId): (r: seq<Entity>)
    requires p < n
  {
    seq(lands, i requires 0 <= i < lands => Entity(i * n + p, Land, Some(p), None, PersonalStash(p)))
      + [Entity(lands * n + p, Citadel, Some(p), Some(p), PersonalStash(p))]
  }

  /** The game Game.__init__ builds for n seated players. */
  function Seeded(n: nat, lands: int, personal: int, community: int): (s: State)
    requires n <= MaxPlayers
  {
    State(lands, personal, community, 1,
      seq(n, p requires 0 <= p < n => StartingStash(n, Max0(lands), p)),
      EmptyBoard, [], [], 0, (Max0(lands) + 1) * n)
  }

  /** Game.__init__: IndexError for more players than there are rotations; a negative count
      seats nobody. */
  function New(players: int, lands: int, personal: int, community: int): (r: Result<State>)
    ensures r.Err? <==> players > MaxPlayers
    ensures r.Err? ==> r.error == IndexError("list index out of range")
    ensures r.Ok? ==> (r.value.PlayerCount() == Max0(players) && r.value.turn == 0
      && r.value.board == EmptyBoard && r.value.pool == [] && r.value.graveyard == [])
  {
    if players > MaxPlayers then Err(IndexError("list index out of range"))
    else Ok(Seeded(Max0(players), lands, personal, community))
  }

  // ---------------------------------------------------------------------------------------
  // Turns

  /** Game.current_player: `players[turn % len(players)]`; with no players the modulo raises. */
  function CurrentPlayer(s: State): (r: Result<PlayerId>)
    ensures r.Err? <==> s.PlayerCount() == 0
    ensures r.Err? ==> r.error == ZeroDivisionError("integer modulo by zero")
    ensures r.Ok? ==> r.value < s.PlayerCount()
  {
    if s.PlayerCount() == 0 then Err(ZeroDivisionError("integer modulo by zero"))
    else Ok(s.turn % s.PlayerCount())
  }

  function EndTurn(s: State): (r: State)
    ensures r.turn == s.turn + 1
  {
    s.(turn := s.turn + 1)
  }

  /** Ending a turn passes play to the next player, round robin, and changes nothing else. */
  lemma EndTurnRotates(s: State)
    requires s.PlayerCount() > 0
    ensures CurrentPlayer(EndTurn(s)).value == (CurrentPlayer(s).value + 1) % s.PlayerCount()
    ensures EndTurn(s).(turn := s.turn) == s
  {
    var n := s.PlayerCount();
    var q, r := s.turn / n, s.turn % n;
    assert CurrentPlayer(s).value == r;
    assert CurrentPlayer(EndTurn(s)).value == (s.turn + 1) % n;
    if r + 1 < n {
      ModOfSum(s.turn + 1, n, q, r + 1);
      ModOfSum(r + 1, n, 0, r + 1);
    } else {
      ModOfSum(s.turn + 1, n, q + 1, 0);
      ModOfSum(r + 1, n, 1, 0);
    }
  }

  /** Dafny's `%` by a positive divisor is the remainder of any such decomposition. */
  lemma ModOfSum(a: int, n: int, q: int, r: int)
    requires 0 <= r < n && a == q * n + r
    ensures a % n == r
  {
    var q', r' := a / n, a % n;
    assert a == q' * n + r';
    var k := q - q';
    assert k * n == q * n - q' * n by { MulSub(q, q', n); }
    assert k * n == r' - r;
    if k > 0 {
      MulAtLeast(k, n);
    } else if k < 0 {
      MulAtLeast(-k, n);
    }
  }

  lemma MulSub(a: int, b: int, n: int)
    ensures (a - b) * n == a * n - b * n
  {
  }

  lemma {:induction false} MulAtLeast(k: int, n: int)
    requires k >= 1 && n >= 1
    ensures k * n >= n
    decreases k
  {
    if k > 1 {
      MulAtLeast(k - 1, n);
      assert k * n == (k - 1) * n + n;
    }
  }

  // ---------------------------------------------------------------------------------------
  // The lists of a game

  /** The entities of the list a location names: a board tile (an absent key reads as an empty
      tile), a seated player's stash, the pool or the graveyard. A list outside the game holds
      nothing the game can see. */
  function Holding(s: State, loc: Location): seq<Entity> {
    match loc
    case OnTile(c) => TileAt(s.board, c).entities
    case PersonalStash(p) => if p < |s.stashes| then s.stashes[p] else []
    case CommunityPool => s.pool
    case Graveyard => s.graveyard
    case Unlisted(_) => []
  }

  /** The lists a game can replace. */
  predicate Replaceable(s: State, loc: Location) {
    match loc
    case OnTile(_) => true
    case PersonalStash(p) => p < |s.stashes|
    case CommunityPool => true
    case Graveyard => true
    case Unlisted(_) => false
  }

  /** Replace the contents of one list; a tile is stored under its key. */
  function Store(s: State, loc: Location, items: seq<Entity>): (r: State)
    requires Replaceable(s, loc)
    ensures forall l :: Holding(r, l) == if l == loc then items else Holding(s, l)
    ensures r.PlayerCount() == s.PlayerCount() && r.nextId == s.nextId && r.turn == s.turn
    ensures s.board.Valid() ==> r.board.Valid()
  {
    match loc
    case OnTile(c) => s.(board := Put(s.board, c, items))
    case PersonalStash(p) => s.(stashes := s.stashes[p := items])
    case CommunityPool => s.(pool := items)
    case Graveyard => s.(graveyard := items)
  }

  /** `entity.location.remove(entity)`: list.remove on the list the entity was last appended
      to. A list outside the game is not part of the state, so removing from it changes
      nothing here. */
  function Detach(s: State, e: Entity): (r: Result<State>)
    ensures e.location.Unlisted? ==> r == Ok(s)
    ensures !e.location.Unlisted? ==> (r.Err? <==> !ContainsId(Holding(s, e.location), e.id))
    ensures r.Err? ==> r.error.ValueError?
    ensures r.Ok? && !e.location.Unlisted? ==>
      r.value == Store(s, e.location, RemoveEntity(Holding(s, e.location), e.id).value)
  {
    if e.location.Unlisted? then Ok(s)
    else if !Replaceable(s, e.location) then Err(ValueError("list.remove(x): x not " + "in list"))
    else
      match RemoveEntity(Holding(s, e.location), e.id)
      case Err(err) => Err(err)
      case Ok(left) => Ok(Store(s, e.location, left))
  }

  // ---------------------------------------------------------------------------------------
  // The effects of the three verbs, as game.place, game.move and game.capture perform them
  // once validation is switched off (a simulated game) or has passed.

  /** game.place after validation: the owner is set first, then the entity leaves its list and
      is appended to the target tile (Tile.append refuses what can_add refuses). */
  function PlaceEffect(s: State, e: Entity, c: Coordinate, p: PlayerId): (r: Outcome<State>)
    ensures r.state.turn == s.turn && r.state.PlayerCount() == s.PlayerCount()
    ensures r.raised.Some? ==> r.raised.value.ValueError?
    ensures r.raised.None? ==> (var t := TileAt(r.state.board, c).entities;
      |t| > 0 && t[|t| - 1] == e.(owner := Some(p), location := OnTile(c)))
  {
    var owned := e.(owner := Some(p));
    match Detach(s, owned)
    case Err(err) => Outcome(s, Some(err))
    case Ok(s1) =>
      match TileAppend(s1.board, c, owned, true)
      case Err(err) => Outcome(s1, Some(err))
      case Ok(b) => Outcome(s1.(board := b), None)
  }

  /** game.move after validation: leave the current list, then Tile.append to the target. */
  function MoveEffect(s: State, e: Entity, c: Coordinate): (r: Outcome<State>)
    ensures r.state.turn == s.turn && r.state.PlayerCount() == s.PlayerCount()
    ensures r.raised.Some? ==> r.raised.value.ValueError?
    ensures r.raised.None? ==> (var t := TileAt(r.state.board, c).entities;
      |t| > 0 && t[|t| - 1] == e.(location := OnTile(c)))
  {
    match Detach(s, e)
    case Err(err) => Outcome(s, Some(err))
    case Ok(s1) =>
      match TileAppend(s1.board, c, e, true)
      case Err(err) => Outcome(s1, Some(err))
      case Ok(b) => Outcome(s1.(board := b), None)
  }

  /** The entity game.capture takes: the first Piece on the target tile (a Turtle is one;
      Land and Citadel are not). */
  function Victim(s: State, c: Coordinate): Option<Entity> {
    var pieces := Selected(TileAt(s.board, c).entities, OfType(AnyPiece));
    if |pieces| == 0 then None else Some(pieces[0])
  }

  /** game.capture after validation: the victim is appended to the graveyard (its location
      becomes the graveyard) and then removed from the board, whose key goes once its tile is
      empty. With no Piece on the tile, `[0]` raises IndexError. */
  function CaptureEffect(s: State, c: Coordinate): (r: Outcome<State>)
    ensures r.state.turn == s.turn && r.state.PlayerCount() == s.PlayerCount()
    ensures Victim(s, c).None? ==> r.state == s && r.raised == Some(IndexError("list index out of range"))
    ensures r.raised.None? ==>
      Victim(s, c).Some? && r.state.graveyard == s.graveyard + [Victim(s, c).value.(location := Graveyard)]
  {
    match Victim(s, c)
    case None => Outcome(s, Some(IndexError("list index out of range")))
    case Some(v) =>
      var s1 := s.(graveyard := Append(s.graveyard, v, Graveyard, true));
      match Remove(s1.board, v)
      case Err(err) => Outcome(s1, Some(err))
      case Ok(b) => Outcome(s1.(board := b), None)
  }

  /** Bird.capture and Knight.capture without validation: game.capture, then the attacker
      moves onto the target tile. The attacker is the same object as before, so only when it
      captured itself has its location become the graveyard. */
  function AttackEffect(s: State, e: Entity, c: Coordinate): (r: Outcome<State>)
    ensures r.state.turn == s.turn && r.state.PlayerCount() == s.PlayerCount()
    ensures r.raised.None? ==> Victim(s, c).Some? && (var t := TileAt(r.state.board, c).entities;
      |t| > 0 && t[|t| - 1] == Attacker(s, e, c).(location := OnTile(c)))
  {
    var captured := CaptureEffect(s, c);
    if captured.raised.Some? then captured
    else MoveEffect(captured.state, Attacker(s, e, c), c)
  }

  /** The attacker's record after the capture at c. */
  function Attacker(s: State, e: Entity, c: Coordinate): (r: Entity)
    ensures r.id == e.id && r.kind == e.kind && r.owner == e.owner
  {
    if Victim(s, c).Some? && Victim(s, c).value.id == e.id then e.(location := Graveyard) else e
  }

  /** `action.execute` for an offered verb in a game whose validation is off. */
  function Execute(s: State, e: Entity, verb: Verb, c: Coordinate, p: PlayerId): (r: Outcome<State>)
    ensures r.state.turn == s.turn && r.state.PlayerCount() == s.PlayerCount()
    ensures r.raised.None? ==> (var t := TileAt(r.state.board, c).entities;
      |t| > 0 && t[|t| - 1].id == e.id && t[|t| - 1].location == OnTile(c))
  {
    match verb
    case PlaceVerb => PlaceEffect(s, e, c, p)
    case MoveVerb => MoveEffect(s, e, c)
    case CaptureVerb => AttackEffect(s, e, c)
  }

  // ---------------------------------------------------------------------------------------
  // Copy and get_equivalent

  /** Re-seat a player reference as JSON does: by name, among the game's players. */
  function Reseat(p: Option<PlayerId>, n: nat): Option<PlayerId> {
    LookupPlayer(n, PlayerNameOf(p))
  }

  /** Rebuild a list from its JSON: each entity is re-created in this list, with both player
      references resolved by name. */
  function Reload(items: seq<Entity>, into: Location, n: nat): (r: seq<Entity>)
    ensures |r| == |items|
    ensures forall i :: 0 <= i < |items| ==>
      r[i] == items[i].(location := into, createdBy := Reseat(items[i].createdBy, n), owner := Reseat(items[i].owner, n))
  {
    seq(|items|, i requires 0 <= i < |items| =>
      items[i].(location := into, createdBy := Reseat(items[i].createdBy, n), owner := Reseat(items[i].owner, n)))
  }

  /** Game.copy, the JSON round trip: every list is rebuilt with its entities located in it,
      the board keeps its keys in order, and all numbers are kept. Python gives the new
      entities new identities; here they keep their ids, which only the copy ever sees. */
  function CopyGame(s: State): (r: State)
    ensures r.PlayerCount() == s.PlayerCount() && r.board.keys == s.board.keys
    ensures r.board.tiles.Keys == s.board.tiles.Keys
  {
    var n := s.PlayerCount();
    s.(stashes := seq(n, p requires 0 <= p < n => Reload(s.stashes[p], PersonalStash(p), n)),
       board := Board(s.board.name, s.board.keys,
         map c | c in s.board.tiles :: Reload(s.board.tiles[c], OnTile(c), n)),
       pool := Reload(s.pool, CommunityPool, n),
       graveyard := Reload(s.graveyard, Graveyard, n))
  }

  /** Board.get_equivalent_entity: the tiles in key order, the first whose search finds one. */
  function BoardEquivalent(b: Board, keys: seq<Coordinate>, target: Entity): (r: Result<Option<Entity>>)
    ensures r.Ok? && r.value.Some? ==> Equivalent(r.value.value, target)
  {
    if |keys| == 0 then Ok(None)
    else
      match EquivalentEntity(TileAt(b, keys[0]).entities, target)
      case Err(err) => Err(err)
      case Ok(Some(x)) => Ok(Some(x))
      case Ok(None) => BoardEquivalent(b, keys[1..], target)
  }

  function StashEquivalent(stashes: seq<seq<Entity>>, target: Entity): (r: Result<Option<Entity>>)
    ensures r.Ok? && r.value.Some? ==> Equivalent(r.value.value, target)
  {
    if |stashes| == 0 then Ok(None)
    else
      match EquivalentEntity(stashes[0], target)
      case Err(err) => Err(err)
      case Ok(Some(x)) => Ok(Some(x))
      case Ok(None) => StashEquivalent(stashes[1..], target)
  }

  /** Game.get_equivalent for an entity: the board, then the pool, the graveyard and each
      stash in player order. A candidate of the right class at the right coordinate without an
      owner (or a target without one) makes the name comparison raise AttributeError. */
  function GetEquivalent(s: State, e: Entity): (r: Result<Option<Entity>>)
    ensures r.Ok? && r.value.Some? ==> Equivalent(r.value.value, e)
  {
    match BoardEquivalent(s.board, s.board.keys, e)
    case Err(err) => Err(err)
    case Ok(Some(x)) => Ok(Some(x))
    case Ok(None) =>
      match EquivalentEntity(s.pool, e)
      case Err(err) => Err(err)
      case Ok(Some(x)) => Ok(Some(x))
      case Ok(None) =>
        match EquivalentEntity(s.graveyard, e)
        case Err(err) => Err(err)
        case Ok(Some(x)) => Ok(Some(x))
        case Ok(None) => StashEquivalent(s.stashes, e)
  }

  /** Entity.simulate: copy the game, find the entity's equivalent in the copy and execute the
      action there with validation off. Any exception on the way escapes to the caller. */
  function Simulate(s: State, e: Entity, verb: Verb, c: Coordinate, p: PlayerId): (r: Result<State>)
    ensures r.Ok? ==> Offers(e.kind, verb.Name()) && GetEquivalent(CopyGame(s), e).Ok?
    ensures !Offers(e.kind, verb.Name()) ==> r.Err?
  {
    var g := CopyGame(s);
    match GetEquivalent(g, e)
    case Err(err) => Err(err)
    case Ok(None) => Err(AttributeError("'NoneType' object has " + "no attribute 'actions'"))
    case Ok(Some(x)) =>
      if !Offers(x.kind, verb.Name()) then Err(KeyError("'" + verb.Name() + "'"))
      else
        var done := Execute(g, x, verb, c, p);
        if done.raised.Some? then Err(done.raised.value) else Ok(done.state)
  }
}
