/** The game object of citadel/game.py as it is played: its lists, its board and its turn are
    fields, and the verbs change them in place. Each method is proved to leave the object in
    the state (and to raise the error) the value model computes, so every lemma about the
    value model is a lemma about the object. */
module Live {
  import opened Util
  import opened Entities
  import opened Boards
  import opened Pieces
  import opened Games
  import opened Players
  import opened Rules
  import opened Actions

  class Game {
    var landsPerPlayer: int
    var personalPerPlayer: int
    var communityPerPlayer: int
    var citadelsPerPlayer: int
    var stashes: seq<seq<Entity>>
    var board: Board
    var pool: seq<Entity>
    var graveyard: seq<Entity>
    var turn: int
    var nextId: EntityId

    /** The game as a value. */
    function Snapshot(): State
      reads this
    {
      State(landsPerPlayer, personalPerPlayer, communityPerPlayer, citadelsPerPlayer,
        stashes, board, pool, graveyard, turn, nextId)
    }

    /** Game.__init__ for n seated players: each land round gives every player, in seat order,
        a Land they created, then each player receives their Citadel. */
    constructor (n: nat, lands: int, personal: int, community: int)
      requires n <= MaxPlayers
      ensures Snapshot() == Seeded(n, lands, personal, community)
    {
      landsPerPlayer := lands;
      personalPerPlayer := personal;
      communityPerPlayer := community;
      citadelsPerPlayer := 1;
      board := EmptyBoard;
      turn := 0;
      pool := [];
      graveyard := [];
      var rounds := Max0(lands);
      nextId := (rounds + 1) * n;
      var held: seq<seq<Entity>> := seq(n, q requires 0 <= q < n => []);
      var r := 0;
      while r < rounds
        invariant 0 <= r <= rounds && |held| == n
        invariant forall q :: 0 <= q < n ==> held[q] == LandsSoFar(n, r, q)
      {
        held := DealLands(held, n, r);
        r := r + 1;
      }
      var dealt := DealCitadels(held, n, rounds);
      stashes := dealt;
    }

    /** Game.end_turn. */
    method EndTurn()
      modifies this
      ensures Snapshot() == Games.EndTurn(old(Snapshot()))
    {
      turn := turn + 1;
    }

    /** Game.phase read from a live game: the stage is the one Phase gives, and every seat's
        Lands are left pointing at the throwaway lists land_tiles built (tags tag, tag + 1, ...). */
    method Phase(tag: nat) returns (phase: GamePhase)
      requires board.Valid()
      modifies this
      ensures phase == Rules.Phase(old(Snapshot()))
      ensures Snapshot() == old(Snapshot()).(board := DetachSeats(old(board), old(Snapshot()).PlayerCount(), tag))
    {
      var after;
      phase, after := PhaseAsWritten(Snapshot(), tag);
      board := after.board;
    }

    /** `entity.location.remove(entity)`. */
    method Leave(e: Entity) returns (raised: Option<Error>)
      modifies this
      ensures Detach(old(Snapshot()), e).Err? ==>
        raised == Some(Detach(old(Snapshot()), e).error) && Snapshot() == old(Snapshot())
      ensures Detach(old(Snapshot()), e).Ok? ==> raised == None && Snapshot() == Detach(old(Snapshot()), e).value
    {
      if e.location.Unlisted? {
        return None;
      }
      var s := Snapshot();
      if !Replaceable(s, e.location) {
        return Some(ValueError("list.remove(x): x not " + "in list"));
      }
      var left := RemoveEntity(Holding(s, e.location), e.id);
      if left.Err? {
        return Some(left.error);
      }
      match e.location {
        case OnTile(c) => board := Put(board, c, left.value);
        case PersonalStash(q) => stashes := stashes[q := left.value];
        case CommunityPool => pool := left.value;
        case Graveyard => graveyard := left.value;
      }
      return None;
    }

    /** The unvalidated body of game.move (and of game.place once the owner is set): leave the
        current list, then Tile.append to the target. */
    method Shift(e: Entity, c: Coordinate) returns (raised: Option<Error>)
      modifies this
      ensures Outcome(Snapshot(), raised) == MoveEffect(old(Snapshot()), e, c)
    {
      raised := Leave(e);
      if raised.Some? {
        return raised;
      }
      var appended := TileAppend(board, c, e, true);
      if appended.Err? {
        return Some(appended.error);
      }
      board := appended.value;
    }

    /** Game.place in a live game. */
    method Place(e: Entity, c: Coordinate, p: PlayerId) returns (raised: Option<Error>)
      modifies this
      ensures Outcome(Snapshot(), raised) == Rules.Place(old(Snapshot()), e, c, p)
    {
      var s := Snapshot();
      var check := CanPlace(s, e, c, p);
      if check.Fail? {
        return Some(PlacementError("Cannot place " + EntityText(e) + " on " + Target(s, c) + ": " + check.why));
      }
      raised := Shift(e.(owner := Some(p)), c);
    }

    /** Game.move in a live game. */
    method Move(e: Entity, c: Coordinate, p: PlayerId) returns (raised: Option<Error>)
      modifies this
      ensures Outcome(Snapshot(), raised) == Rules.Move(old(Snapshot()), e, c, p)
    {
      var s := Snapshot();
      var check := CanMove(s, e, c, p);
      if check.Err? {
        return Some(check.error);
      }
      if check.value.Fail? {
        return Some(PlacementError("Cannot move " + EntityText(e) + " to " + Target(s, c) + ": " + check.value.why));
      }
      raised := Shift(e, c);
    }

    /** Game.capture in a live game: the first piece of the tile goes to the graveyard, then
        leaves the board. */
    method Capture(e: Entity, c: Coordinate, p: PlayerId) returns (raised: Option<Error>)
      modifies this
      ensures Outcome(Snapshot(), raised) == Rules.Capture(old(Snapshot()), e, c, p)
    {
      var s := Snapshot();
      var check := CanCapture(s, e, c, p);
      if check.Err? {
        return Some(check.error);
      }
      if check.value.Fail? {
        return Some(CaptureFailure(s, e, c, check.value.why));
      }
      assert Rules.Capture(s, e, c, p) == CaptureEffect(s, c);
      raised := Take(c);
    }

    /** The unvalidated body of game.capture. */
    method Take(c: Coordinate) returns (raised: Option<Error>)
      modifies this
      ensures Outcome(Snapshot(), raised) == CaptureEffect(old(Snapshot()), c)
    {
      var s := Snapshot();
      var victim := Victim(s, c);
      if victim.None? {
        return Some(IndexError("list index out of range"));
      }
      graveyard := Append(graveyard, victim.value, Graveyard, true);
      var left := Remove(board, victim.value);
      if left.Err? {
        return Some(left.error);
      }
      board := left.value;
      raised := None;
    }

    /** Bird.capture and Knight.capture in a live game: capture, then move onto the tile. */
    method Attack(e: Entity, c: Coordinate, p: PlayerId) returns (raised: Option<Error>)
      modifies this
      ensures Outcome(Snapshot(), raised) == Actions.Attack(old(Snapshot()), e, c, p)
    {
      var attacker := Attacker(Snapshot(), e, c);
      raised := Capture(e, c, p);
      if raised.Some? {
        return;
      }
      raised := Move(attacker, c, p);
    }

    /** Player.perform_action: resolve, check, execute, end the turn. */
    method PerformAction(p: PlayerId, ref: EntityRef, name: string, target: TargetRef) returns (raised: Option<Error>)
      modifies this
      ensures Outcome(Snapshot(), raised) == Actions.PerformAction(old(Snapshot()), p, ref, name, target)
    {
      var s := Snapshot();
      var at := ToTile(target);
      if at.Err? {
        return Some(at.error);
      }
      var entity := ToEntity(s, p, ref);
      if entity.Err? {
        return Some(entity.error);
      }
      var e := entity.value;
      var check := CanPerformAction(s, p, ByEntity(e), name, Passed(at.value));
      if check.Err? {
        return Some(check.error);
      }
      if check.value.Fail? {
        return Some(ActionError(check.value.why));
      }
      PassedOnTile(s, p, e, name, at.value);
      OfferedNamesAreVerbs(e.kind, name);
      var verb := VerbNamed(name).value;
      assert Actions.PerformAction(s, p, ref, name, target) ==
        var done := Act(s, e, verb, at.value.c, p);
        if done.raised.Some? then done else Outcome(Games.EndTurn(done.state), None);
      raised := Execute(e, verb, at.value.c, p);
      if raised.Some? {
        return raised;
      }
      EndTurn();
    }

    /** `actions[name].execute` in a live game. */
    method Execute(e: Entity, verb: Verb, c: Coordinate, p: PlayerId) returns (raised: Option<Error>)
      modifies this
      ensures Outcome(Snapshot(), raised) == Act(old(Snapshot()), e, verb, c, p)
    {
      match verb {
        case PlaceVerb => raised := Place(e, c, p);
        case MoveVerb => raised := Move(e, c, p);
        case CaptureVerb => raised := Attack(e, c, p);
      }
    }

    /** Player.choose_community_piece with a class. */
    method ChooseCommunityPiece(p: PlayerId, k: Kind) returns (raised: Option<Error>)
      requires p < |stashes|
      modifies this
      ensures var r := Players.ChooseCommunityPiece(old(Snapshot()), p, k);
        if r.Err? then raised == Some(r.error) && Snapshot() == old(Snapshot())
        else raised == None && Snapshot() == r.value
    {
      var s := Snapshot();
      var r := Players.ChooseCommunityPiece(s, p, k);
      if r.Err? {
        return Some(r.error);
      }
      pool := pool + [Entity(nextId, k, Some(p), None, CommunityPool)];
      nextId := nextId + 1;
      return None;
    }

    /** Player.choose_personal_piece with a class. */
    method ChoosePersonalPiece(p: PlayerId, k: Kind) returns (raised: Option<Error>)
      requires p < |stashes|
      modifies this
      ensures var r := Players.ChoosePersonalPiece(old(Snapshot()), p, k);
        if r.Err? then raised == Some(r.error) && Snapshot() == old(Snapshot())
        else raised == None && Snapshot() == r.value
    {
      var s := Snapshot();
      var r := Players.ChoosePersonalPiece(s, p, k);
      if r.Err? {
        return Some(r.error);
      }
      stashes := stashes[p := stashes[p] + [Entity(nextId, k, Some(p), Some(p), PersonalStash(p))]];
      nextId := nextId + 1;
      return None;
    }
  }

  /** The Lands a player holds after some land rounds. */
  function LandsSoFar(n: nat, rounds: nat, q: PlayerId): seq<Entity> {
    seq(rounds, i requires 0 <= i < rounds => Entity(i * n + q, Land, Some(q), None, PersonalStash(q)))
  }

  /** One land round: each player in seat order creates a Land in their stash. */
  method DealLands(held: seq<seq<Entity>>, n: nat, r: nat) returns (dealt: seq<seq<Entity>>)
    requires |held| == n && forall q :: 0 <= q < n ==> held[q] == LandsSoFar(n, r, q)
    ensures |dealt| == n && forall q :: 0 <= q < n ==> dealt[q] == LandsSoFar(n, r + 1, q)
  {
    dealt := held;
    var p := 0;
    while p < n
      invariant 0 <= p <= n && |dealt| == n
      invariant forall q :: 0 <= q < p ==> dealt[q] == LandsSoFar(n, r + 1, q)
      invariant forall q :: p <= q < n ==> dealt[q] == LandsSoFar(n, r, q)
    {
      assert LandsSoFar(n, r + 1, p) == LandsSoFar(n, r, p) + [Entity(r * n + p, Land, Some(p), None, PersonalStash(p))];
      dealt := dealt[p := dealt[p] + [Entity(r * n + p, Land, Some(p), None, PersonalStash(p))]];
      p := p + 1;
    }
  }

  /** The citadel round: each player in seat order receives their Citadel. */
  method DealCitadels(held: seq<seq<Entity>>, n: nat, rounds: nat) returns (dealt: seq<seq<Entity>>)
    requires |held| == n && forall q :: 0 <= q < n ==> held[q] == LandsSoFar(n, rounds, q)
    ensures dealt == seq(n, q requires 0 <= q < n => StartingStash(n, rounds, q))
  {
    dealt := held;
    var p := 0;
    while p < n
      invariant 0 <= p <= n && |dealt| == n
      invariant forall q :: 0 <= q < p ==> dealt[q] == StartingStash(n, rounds, q)
      invariant forall q :: p <= q < n ==> dealt[q] == LandsSoFar(n, rounds, q)
    {
      dealt := dealt[p := dealt[p] + [Entity(rounds * n + p, Citadel, Some(p), Some(p), PersonalStash(p))]];
      p := p + 1;
    }
  }

  /** Game(...) as the constructor call behind it: IndexError past four players, and otherwise
      the seeded game, where a negative count seats nobody. */
  method NewGame(players: int, lands: int, personal: int, community: int) returns (g: Game?, raised: Option<Error>)
    ensures raised.Some? <==> New(players, lands, personal, community).Err?
    ensures raised.Some? ==> g == null && raised.value == New(players, lands, personal, community).error
    ensures raised.None? ==> g != null && fresh(g) && g.Snapshot() == New(players, lands, personal, community).value
  {
    if players > MaxPlayers {
      return null, Some(IndexError("list index out of range"));
    }
    g := new Game(Max0(players), lands, personal, community);
    raised := None;
  }
}
