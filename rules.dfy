/** citadel/game.py: the validated verbs (can_place/place, can_move/move, can_capture/capture),
    the winner and the phase. A live game validates every action; the effects themselves are
    in Games. */
module Rules {
  import opened Util
  import opened Entities
  import opened Boards
  import opened Connectivity
  import opened Pieces
  import opened Games
  import opened Coherence
  import opened Players

  function Target(s: State, c: Coordinate): string { TileText(TileAt(s.board, c)) }

  // ---------------------------------------------------------------------------------------
  // Moving

  /** Game.can_move: the target tile must admit the piece, the player must own it, and the
      game simulated through the move must keep the citadels connected. The simulation can
      raise, and that escapes. */
  function CanMove(s: State, e: Entity, c: Coordinate, p: PlayerId): (r: Result<BoolWithReason>)
    ensures r == Ok(Pass) ==> CanAdd(TileAt(s.board, c).entities, e).Pass? && e.owner == Some(p)
  {
    var admitted := CanAdd(TileAt(s.board, c).entities, e);
    if admitted.Fail? then
      Ok(Fail("cannot add " + EntityText(e) + " to " + Target(s, c) + ": " + admitted.why))
    else if e.owner != Some(p) then
      Ok(Fail("Cannot move " + EntityText(e) + ": not owned by player '" + PlayerName(p) + "'."))
    else
      match Simulate(s, e, MoveVerb, c, p)
      case Err(err) => Err(err)
      case Ok(g) =>
        if !CitadelsConnected(g.board) then
          Ok(Fail("moving " + EntityText(e) + " to " + Target(s, c) + (" would disconnect " + "citadels")))
        else Ok(Pass)
  }

  function MoveFailure(s: State, e: Entity, c: Coordinate, why: string): Error {
    PlacementError("Cannot move " + EntityText(e) + " to " + Target(s, c) + ": " + why)
  }

  /** Game.move in a validating game: a refusal raises PlacementError with the check's reason
      before anything changes, and an exception from the check escapes as it is. */
  function Move(s: State, e: Entity, c: Coordinate, p: PlayerId): (r: Outcome<State>)
    ensures CanMove(s, e, c, p) != Ok(Pass) ==> r.state == s && r.raised.Some?
    ensures CanMove(s, e, c, p).Err? ==> r.raised == Some(CanMove(s, e, c, p).error)
    ensures CanMove(s, e, c, p).Ok? && CanMove(s, e, c, p).value.Fail? ==>
      r.raised == Some(MoveFailure(s, e, c, CanMove(s, e, c, p).value.why))
  {
    match CanMove(s, e, c, p)
    case Err(err) => Outcome(s, Some(err))
    case Ok(Fail(why)) => Outcome(s, Some(MoveFailure(s, e, c, why)))
    case Ok(Pass) => MoveEffect(s, e, c)
  }

  // ---------------------------------------------------------------------------------------
  // Placing

  /** Game.can_place: the tile must admit the entity, the entity must be in the player's stash
      or the pool, and a piece must go next to one of the player's citadels. */
  function CanPlace(s: State, e: Entity, c: Coordinate, p: PlayerId): (r: BoolWithReason)
    ensures r.Pass? ==> CanAdd(TileAt(s.board, c).entities, e).Pass? && MayPlace(s, p, e)
    ensures r.Pass? && e.kind.IsPiece() ==> IsAdjacentToCitadel(s, p, c)
  {
    var admitted := CanAdd(TileAt(s.board, c).entities, e);
    if admitted.Fail? then
      Fail("cannot add " + EntityText(e) + " to " + Target(s, c) + ": " + admitted.why)
    else if !MayPlace(s, p, e) then
      Fail("Player '" + PlayerText(p) + ("' does not have access " + "to place ") + EntityText(e) + ".")
    else if e.kind.IsPiece() && !IsAdjacentToCitadel(s, p, c) then
      Fail("Cannot place " + EntityText(e) + " at " + Target(s, c) + (": not adjacent to any " + "of player's citadels."))
    else Pass
  }

  /** On any board, can_place passes exactly when none of its three tests fails. */
  lemma CanPlaceMeans(s: State, e: Entity, c: Coordinate, p: PlayerId)
    ensures CanPlace(s, e, c, p).Pass? <==>
      && CanAdd(TileAt(s.board, c).entities, e).Pass? && MayPlace(s, p, e)
      && (e.kind.IsPiece() ==> IsAdjacentToCitadel(s, p, c))
  {
  }

  function PlaceFailure(s: State, e: Entity, c: Coordinate, why: string): Error {
    PlacementError("Cannot place " + EntityText(e) + " on " + Target(s, c) + ": " + why)
  }

  /** Game.place in a validating game: a refusal raises PlacementError with the check's reason
      before anything changes. */
  function Place(s: State, e: Entity, c: Coordinate, p: PlayerId): (r: Outcome<State>)
    ensures CanPlace(s, e, c, p).Fail? ==> r.state == s && r.raised == Some(PlaceFailure(s, e, c, CanPlace(s, e, c, p).why))
  {
    match CanPlace(s, e, c, p)
    case Fail(why) => Outcome(s, Some(PlaceFailure(s, e, c, why)))
    case Pass => PlaceEffect(s, e, c, p)
  }

  // ---------------------------------------------------------------------------------------
  // Capturing

  function HasPieceAt(s: State, c: Coordinate): bool {
    |Selected(TileAt(s.board, c).entities, OfType(AnyPiece))| > 0
  }

  /** Game.can_capture as written: some piece must be on the target, and the game simulated
      through the capture (the capture and the attacker's move onto the tile) must keep the
      citadels connected. Whose piece captures is not checked. */
  function CanCapture(s: State, e: Entity, c: Coordinate, p: PlayerId): (r: Result<BoolWithReason>)
    ensures r == Ok(Pass) ==> Victim(s, c).Some?
  {
    if !HasPieceAt(s, c) then Ok(Fail(Target(s, c) + (" has no pieces to " + "capture.")))
    else
      match Simulate(s, e, CaptureVerb, c, p)
      case Err(err) => Err(err)
      case Ok(g) =>
        if !CitadelsConnected(g.board) then Ok(Fail("capture at " + Target(s, c) + (" would disconnect " + "citadels")))
        else Ok(Pass)
  }

  /** Corrected: game.can_capture with the ownership test that can_move makes, so that the
      capturing piece must belong to the player. */
  function CanCaptureCorrected(s: State, e: Entity, c: Coordinate, p: PlayerId): (r: Result<BoolWithReason>)
    ensures r == Ok(Pass) ==> Victim(s, c).Some? && e.owner == Some(p)
  {
    if !HasPieceAt(s, c) then Ok(Fail(Target(s, c) + (" has no pieces to " + "capture.")))
    else if e.owner != Some(p) then
      Ok(Fail("Cannot capture with " + EntityText(e) + ": not owned by player '" + PlayerName(p) + "'."))
    else CanCapture(s, e, c, p)
  }

  /** The two agree whenever the player owns the piece; otherwise only the corrected one
      refuses. */
  lemma CanCaptureCorrects(s: State, e: Entity, c: Coordinate, p: PlayerId)
    ensures e.owner == Some(p) ==> CanCaptureCorrected(s, e, c, p) == CanCapture(s, e, c, p)
    ensures e.owner != Some(p) && HasPieceAt(s, c) ==>
      CanCaptureCorrected(s, e, c, p).Ok? && CanCaptureCorrected(s, e, c, p).value.Fail?
  {
  }

  function CaptureFailure(s: State, e: Entity, c: Coordinate, why: string): Error {
    PlacementError("Cannot capture " + Target(s, c) + " with " + EntityText(e) + ": " + why)
  }

  /** Game.capture in a validating game, as written: a refusal raises PlacementError with the
      check's reason before anything changes, and an exception from the check escapes. */
  function Capture(s: State, e: Entity, c: Coordinate, p: PlayerId): (r: Outcome<State>)
    ensures CanCapture(s, e, c, p) != Ok(Pass) ==> r.state == s && r.raised.Some?
    ensures CanCapture(s, e, c, p).Err? ==> r.raised == Some(CanCapture(s, e, c, p).error)
    ensures CanCapture(s, e, c, p).Ok? && CanCapture(s, e, c, p).value.Fail? ==>
      r.raised == Some(CaptureFailure(s, e, c, CanCapture(s, e, c, p).value.why))
  {
    match CanCapture(s, e, c, p)
    case Err(err) => Outcome(s, Some(err))
    case Ok(Fail(why)) => Outcome(s, Some(CaptureFailure(s, e, c, why)))
    case Ok(Pass) => CaptureEffect(s, c)
  }

  /** Corrected: game.capture in a validating game on top of the corrected check, refusing a
      piece the player does not own. */
  function CaptureCorrected(s: State, e: Entity, c: Coordinate, p: PlayerId): (r: Outcome<State>)
    ensures CanCaptureCorrected(s, e, c, p) != Ok(Pass) ==> r.state == s && r.raised.Some?
    ensures e.owner != Some(p) ==> r.state == s && r.raised.Some?
  {
    match CanCaptureCorrected(s, e, c, p)
    case Err(err) => Outcome(s, Some(err))
    case Ok(Fail(why)) => Outcome(s, Some(CaptureFailure(s, e, c, why)))
    case Ok(Pass) => CaptureEffect(s, c)
  }

  // ---------------------------------------------------------------------------------------
  // What the validated verbs guarantee

  /** A simulation only succeeds for a verb the entity's action list offers. */
  lemma SimulatedOffer(s: State, e: Entity, verb: Verb, c: Coordinate, p: PlayerId)
    requires Structure(s) && GetEquivalent(s, e) == Ok(Some(e))
    ensures Simulate(s, e, verb, c, p).Ok? ==> Offers(e.kind, verb.Name())
    ensures Offers(e.kind, verb.Name()) ==>
      Simulate(s, e, verb, c, p) == if Execute(s, e, verb, c, p).raised.Some? then Err(Execute(s, e, verb, c, p).raised.value)
        else Ok(Execute(s, e, verb, c, p).state)
  {
    if Offers(e.kind, verb.Name()) {
      SimulateIsExecute(s, e, verb, c, p);
    } else {
      SimulateNeedsOffer(s, e, verb, c, p);
    }
  }

  /** On a coherent board, can_move is the move itself: it passes exactly when the tile admits
      the piece, the player owns it, and the board after the move has its citadels connected. */
  lemma CanMoveMeans(s: State, e: Entity, k: nat, c: Coordinate, p: PlayerId)
    requires Coherent(s) && e.location.OnTile? && k < |Holding(s, e.location)| && Holding(s, e.location)[k] == e
    requires Offers(e.kind, MoveVerb.Name())
    ensures CanMove(s, e, c, p) == Ok(Pass) <==>
      && CanAdd(TileAt(s.board, c).entities, e).Pass? && e.owner == Some(p)
      && MoveEffect(s, e, c).raised.None? && CitadelsConnected(MoveEffect(s, e, c).state.board)
  {
    EquivalentOnBoard(s, e, e.location.at, k);
    SimulateIsExecute(s, e, MoveVerb, c, p);
  }

  /** A validated move either changes nothing and raises, or keeps the invariant and moves the
      piece from its list to the top of the target tile. */
  lemma MoveKeeps(s: State, e: Entity, k: nat, c: Coordinate, p: PlayerId)
    requires Coherent(s) && k < |Holding(s, e.location)| && Holding(s, e.location)[k] == e
    requires e.LayerOf() == Layer.Piece && p < s.PlayerCount()
    ensures Coherent(Move(s, e, c, p).state)
    ensures Move(s, e, c, p).raised.Some? ==> Move(s, e, c, p).state == s
    ensures Move(s, e, c, p).raised.None? ==>
      var after := Move(s, e, c, p).state;
      && e.location != OnTile(c) && e.owner == Some(p) && after == MoveEffect(s, e, c).state
      && Holding(after, OnTile(c)) == Holding(s, OnTile(c)) + [e.(location := OnTile(c))]
      && Holding(after, e.location) == Omit(Holding(s, e.location), k)
  {
    if CanMove(s, e, c, p) == Ok(Pass) {
      MoveEffectIsTransfer(s, e, k, c);
      TransferKeeps(s, e, k, e.owner, c);
      assert e.(owner := e.owner, location := OnTile(c)) == e.(location := OnTile(c));
    }
  }

  /** A validated move of a piece on the board leaves the citadels connected. */
  lemma MoveConnects(s: State, e: Entity, k: nat, c: Coordinate, p: PlayerId)
    requires Coherent(s) && e.location.OnTile? && k < |Holding(s, e.location)| && Holding(s, e.location)[k] == e
    ensures Move(s, e, c, p).raised.None? ==> CitadelsConnected(Move(s, e, c, p).state.board)
  {
    if CanMove(s, e, c, p) == Ok(Pass) {
      EquivalentOnBoard(s, e, e.location.at, k);
      SimulatedOffer(s, e, MoveVerb, c, p);
    }
  }

  /** The entity game.place accepts sits in the player's stash or in the pool. */
  lemma PlaceableLocation(s: State, e: Entity, k: nat, p: PlayerId)
    requires Structure(s) && k < |Holding(s, e.location)| && Holding(s, e.location)[k] == e
    requires MayPlace(s, p, e)
    ensures e.location == PersonalStash(p) || e.location == CommunityPool
  {
    MayPlaceIff(s, p, e);
    if ContainsId(Holding(s, PersonalStash(p)), e.id) {
      var i :| 0 <= i < |Holding(s, PersonalStash(p))| && Holding(s, PersonalStash(p))[i].id == e.id;
      assert Holding(s, PersonalStash(p))[i].id == Holding(s, e.location)[k].id;
    } else {
      var i :| 0 <= i < |Holding(s, CommunityPool)| && Holding(s, CommunityPool)[i].id == e.id;
      assert Holding(s, CommunityPool)[i].id == Holding(s, e.location)[k].id;
    }
  }

  /** A validated placement either changes nothing and raises, or keeps the invariant and
      moves the entity from the stash or the pool to the top of the tile, owned by the player. */
  lemma PlaceKeeps(s: State, e: Entity, k: nat, c: Coordinate, p: PlayerId)
    requires Coherent(s) && k < |Holding(s, e.location)| && Holding(s, e.location)[k] == e
    requires p < s.PlayerCount()
    ensures Coherent(Place(s, e, c, p).state)
    ensures Place(s, e, c, p).raised.Some? ==> Place(s, e, c, p).state == s
    ensures Place(s, e, c, p).raised.None? ==>
      var after := Place(s, e, c, p).state;
      && (e.location == PersonalStash(p) || e.location == CommunityPool)
      && Holding(after, OnTile(c)) == Holding(s, OnTile(c)) + [e.(owner := Some(p), location := OnTile(c))]
      && Holding(after, e.location) == Omit(Holding(s, e.location), k)
  {
    if CanPlace(s, e, c, p).Pass? {
      PlaceableLocation(s, e, k, p);
      PlaceEffectIsTransfer(s, e, k, c, p);
      TransferKeeps(s, e, k, Some(p), c);
    }
  }

  /** On a coherent board, can_capture with a piece on the board passes exactly when the
      attack (the capture and the attacker's move) succeeds and leaves the citadels
      connected. Whose piece it is plays no part. */
  lemma CanCaptureMeans(s: State, e: Entity, k: nat, c: Coordinate, p: PlayerId)
    requires Coherent(s) && e.location.OnTile? && k < |Holding(s, e.location)| && Holding(s, e.location)[k] == e
    requires Offers(e.kind, CaptureVerb.Name())
    ensures CanCapture(s, e, c, p) == Ok(Pass) <==>
      && Victim(s, c).Some?
      && AttackEffect(s, e, c).raised.None? && CitadelsConnected(AttackEffect(s, e, c).state.board)
  {
    EquivalentOnBoard(s, e, e.location.at, k);
    SimulateIsExecute(s, e, CaptureVerb, c, p);
    var done := AttackEffect(s, e, c);
    assert Execute(s, e, CaptureVerb, c, p) == done;
    if Victim(s, c).None? {
      assert !HasPieceAt(s, c);
      assert CaptureEffect(s, c).raised.Some?;
    } else {
      assert HasPieceAt(s, c);
      if done.raised.Some? {
        assert Simulate(s, e, CaptureVerb, c, p) == Err(done.raised.value);
      } else {
        assert Simulate(s, e, CaptureVerb, c, p) == Ok(done.state);
      }
    }
  }

  lemma CapturePassSimulated(s: State, e: Entity, k: nat, c: Coordinate, p: PlayerId)
    requires Coherent(s) && e.location.OnTile? && k < |Holding(s, e.location)| && Holding(s, e.location)[k] == e
    requires CanCapture(s, e, c, p) == Ok(Pass)
    ensures Victim(s, c).Some? && AttackEffect(s, e, c).raised.None?
  {
    assert Simulate(s, e, CaptureVerb, c, p).Ok?;
    EquivalentOnBoard(s, e, e.location.at, k);
    SimulatedOffer(s, e, CaptureVerb, c, p);
    assert Execute(s, e, CaptureVerb, c, p) == AttackEffect(s, e, c);
  }

  /** What a passed can_capture tells about the live game: the attack it simulated is the
      attack on this game, so it took a PIECE-layer piece. */
  lemma CapturePassed(s: State, e: Entity, k: nat, c: Coordinate, p: PlayerId) returns (kv: nat)
    requires Coherent(s) && e.location.OnTile? && k < |Holding(s, e.location)| && Holding(s, e.location)[k] == e
    requires e.LayerOf() == Layer.Piece && CanCapture(s, e, c, p) == Ok(Pass)
    ensures kv < |Holding(s, OnTile(c))| && Victim(s, c) == Some(Holding(s, OnTile(c))[kv])
    ensures Holding(s, OnTile(c))[kv].LayerOf() == Layer.Piece
    ensures AttackEffect(s, e, c).raised.None?
  {
    CapturePassSimulated(s, e, k, c, p);
    VictimIsHeld(s, c);
    kv :| 0 <= kv < |Holding(s, OnTile(c))| && Holding(s, OnTile(c))[kv] == Victim(s, c).value;
    AttackTookPiece(s, e, k, c, kv);
  }

  /** A validated capture either changes nothing and raises, or keeps the invariant and sends
      the first piece of the target tile, which is a PIECE-layer piece, to the graveyard. */
  lemma CaptureKeeps(s: State, e: Entity, k: nat, c: Coordinate, p: PlayerId)
    requires Coherent(s) && e.location.OnTile? && k < |Holding(s, e.location)| && Holding(s, e.location)[k] == e
    requires e.LayerOf() == Layer.Piece
    ensures Coherent(Capture(s, e, c, p).state)
    ensures Capture(s, e, c, p).raised.Some? ==> Capture(s, e, c, p).state == s
    ensures Capture(s, e, c, p).raised.None? ==>
      && Victim(s, c).Some? && Victim(s, c).value.LayerOf() == Layer.Piece
      && Capture(s, e, c, p).state == CaptureEffect(s, c).state
      && Holding(Capture(s, e, c, p).state, Graveyard) == s.graveyard + [Victim(s, c).value.(location := Graveyard)]
  {
    if CanCapture(s, e, c, p) == Ok(Pass) {
      CaptureCommits(s, e, k, c, p);
    }
  }

  /** A passed capture takes its Piece-layer victim to the graveyard and keeps the invariant. */
  lemma CaptureCommits(s: State, e: Entity, k: nat, c: Coordinate, p: PlayerId)
    requires Coherent(s) && e.location.OnTile? && k < |Holding(s, e.location)| && Holding(s, e.location)[k] == e
    requires e.LayerOf() == Layer.Piece && CanCapture(s, e, c, p) == Ok(Pass)
    ensures Capture(s, e, c, p) == CaptureEffect(s, c) && CaptureEffect(s, c).raised.None?
    ensures Coherent(CaptureEffect(s, c).state)
    ensures Victim(s, c).Some? && Victim(s, c).value.LayerOf() == Layer.Piece
    ensures Holding(CaptureEffect(s, c).state, Graveyard) == s.graveyard + [Victim(s, c).value.(location := Graveyard)]
  {
    var kv := CapturePassed(s, e, k, c, p);
    Coherence.CaptureKeeps(s, c, kv);
    CaptureIsEffect(s, c, kv);
  }

  // ---------------------------------------------------------------------------------------
  // Winner and phase

  /** `[len(player.citadels) > 0 for player in players]`. */
  function HasCitadels(s: State): (r: seq<bool>)
    ensures |r| == s.PlayerCount()
    ensures forall q :: 0 <= q < |r| ==> (r[q] <==> |PlayerCitadels(s, q)| > 0)
  {
    seq(s.PlayerCount(), q requires 0 <= q < s.PlayerCount() => |PlayerCitadels(s, q)| > 0)
  }

  function CountTrue(bs: seq<bool>): nat {
    if |bs| == 0 then 0 else (if bs[0] then 1 else 0) + CountTrue(bs[1..])
  }

  /** list.index(True). */
  function IndexOfTrue(bs: seq<bool>): (i: nat)
    requires true in bs
    ensures i < |bs| && bs[i] && forall j :: 0 <= j < i ==> !bs[j]
  {
    if bs[0] then 0
    else
      assert true in bs[1..] by {
        var k :| 0 <= k < |bs| && bs[k];
        assert bs[1..][k - 1];
      }
      1 + IndexOfTrue(bs[1..])
  }

  /** Game.winner: the one player with a citadel on the board, when exactly one has any. */
  function Winner(s: State): (r: Option<PlayerId>)
    ensures r.Some? ==> r.value < s.PlayerCount() && |PlayerCitadels(s, r.value)| > 0
  {
    var has := HasCitadels(s);
    if CountTrue(has) == 1 then
      assert true in has by { CountPositive(has); }
      Some(IndexOfTrue(has))
    else None
  }

  lemma {:induction false} CountPositive(bs: seq<bool>)
    ensures CountTrue(bs) > 0 <==> true in bs
    decreases |bs|
  {
    if |bs| > 0 {
      CountPositive(bs[1..]);
      assert forall b :: b in bs <==> b == bs[0] || b in bs[1..];
    }
  }

  /** Exactly one element is true when the count is one, and conversely. */
  lemma {:induction false} CountOne(bs: seq<bool>, w: nat)
    requires w < |bs| && bs[w]
    ensures CountTrue(bs) == 1 <==> forall q :: 0 <= q < |bs| && q != w ==> !bs[q]
    decreases |bs|
  {
    if w == 0 {
      CountPositive(bs[1..]);
      if exists q :: 0 < q < |bs| && bs[q] {
        var q :| 0 < q < |bs| && bs[q];
        assert bs[1..][q - 1];
      }
      if true in bs[1..] {
        var q :| 0 <= q < |bs[1..]| && bs[1..][q];
        assert bs[q + 1];
      }
    } else {
      CountOne(bs[1..], w - 1);
      assert forall q :: 0 <= q < |bs[1..]| ==> bs[1..][q] == bs[q + 1];
      if bs[0] {
        CountPositive(bs[1..]);
        assert bs[1..][w - 1];
      }
    }
  }

  /** The winner is the only player holding a citadel on the board; there is none when no
      player or several players hold one. */
  lemma WinnerIsSoleHolder(s: State, w: PlayerId)
    ensures Winner(s) == Some(w) <==>
      && w < s.PlayerCount() && |PlayerCitadels(s, w)| > 0
      && forall q :: 0 <= q < s.PlayerCount() && q != w ==> |PlayerCitadels(s, q)| == 0
  {
    var has := HasCitadels(s);
    if Winner(s) == Some(w) {
      CountOne(has, w);
    }
    if w < s.PlayerCount() && |PlayerCitadels(s, w)| > 0 {
      CountOne(has, w);
      if CountTrue(has) == 1 {
        var i := IndexOfTrue(has);
      }
    }
  }

  predicate AllDonePlacingLands(s: State) {
    forall q :: 0 <= q < s.PlayerCount() ==> IsDonePlacingLands(s, q)
  }

  predicate AllDonePlacingCitadels(s: State) {
    forall q :: 0 <= q < s.PlayerCount() ==> IsDonePlacingCitadels(s, q)
  }

  predicate AllDoneChoosingPieces(s: State) {
    forall q :: 0 <= q < s.PlayerCount() ==> IsDoneChoosingPieces(s, q)
  }

  /** Game.phase: the first stage some player has not finished; then BATTLE until there is a
      winner (a Player is always truthy), and END after. */
  function Phase(s: State): (r: GamePhase)
    ensures r in {Battle, End} ==> AllDonePlacingLands(s) && AllDonePlacingCitadels(s) && AllDoneChoosingPieces(s)
    ensures r == End ==> (Winner(s).Some? &&
      forall q :: 0 <= q < s.PlayerCount() && q != Winner(s).value ==> |PlayerCitadels(s, q)| == 0)
  {
    if !AllDonePlacingLands(s) then LandPlacement
    else if !AllDonePlacingCitadels(s) then CitadelPlacement
    else if !AllDoneChoosingPieces(s) then PieceSelection
    else if Winner(s).None? then Battle
    else
      WinnerIsSoleHolder(s, Winner(s).value);
      End
  }

  /** All players are done placing lands exactly when each has the quota of Lands on the
      board, counted as Board.where counts them. */
  lemma LandsPlaced(s: State)
    requires Coherent(s)
    ensures AllDonePlacingLands(s) <==> forall q :: 0 <= q < s.PlayerCount() ==>
      |BoardWhere(s.board, OfKind(Land), Some(q), None, None)| >= s.landsPerPlayer
  {
    forall c | c in s.board.tiles ensures DistinctLayers(s.board.tiles[c]) {
      assert Layered(s.board.tiles[c]);
    }
    forall q: PlayerId | q < s.PlayerCount()
      ensures |LandTiles(s, q)| == |BoardWhere(s.board, OfKind(Land), Some(q), None, None)|
    {
      LandTilesAreBoardLands(s, q);
    }
    assert forall q :: 0 <= q < s.PlayerCount() ==>
      (IsDonePlacingLands(s, q) <==> |BoardWhere(s.board, OfKind(Land), Some(q), None, None)| >= s.landsPerPlayer);
  }

  /** What each phase says about the board: past land placement every player has the quota of
      Lands on the board; past citadel placement every player owns the quota of citadels there;
      the battle has several citadel holders or none; the end has exactly one. */
  lemma PhaseSpec(s: State)
    requires Coherent(s)
    ensures Phase(s) != LandPlacement ==> forall q :: 0 <= q < s.PlayerCount() ==>
      |BoardWhere(s.board, OfKind(Land), Some(q), None, None)| >= s.landsPerPlayer
    ensures Phase(s) == LandPlacement ==>
      (exists q :: 0 <= q < s.PlayerCount() && |BoardWhere(s.board, OfKind(Land), Some(q), None, None)| < s.landsPerPlayer)
    ensures Phase(s) in {PieceSelection, Battle, End} ==> forall q :: 0 <= q < s.PlayerCount() ==>
      |PlayerCitadels(s, q)| >= s.citadelsPerPlayer
    ensures Phase(s) in {Battle, End} ==> forall q :: 0 <= q < s.PlayerCount() ==> IsDoneChoosingPieces(s, q)
    ensures Phase(s) == End <==>
      (AllDoneChoosingPieces(s) && AllDonePlacingCitadels(s) && AllDonePlacingLands(s) && Winner(s).Some?)
    ensures Phase(s) == End ==>
      (exists w :: 0 <= w < s.PlayerCount() && |PlayerCitadels(s, w)| > 0
        && forall q :: 0 <= q < s.PlayerCount() && q != w ==> |PlayerCitadels(s, q)| == 0)
  {
    LandsPlaced(s);
    assert forall q :: 0 <= q < s.PlayerCount() ==>
      (IsDonePlacingCitadels(s, q) <==> |PlayerCitadels(s, q)| >= s.citadelsPerPlayer);
    if Phase(s) == LandPlacement {
      var q :| 0 <= q < s.PlayerCount() && !IsDonePlacingLands(s, q);
    }
    if Phase(s) == End {
      WinnerIsSoleHolder(s, Winner(s).value);
    }
  }

  /** Phase reads a board through the land counts and the citadels of each player only:
      two states that agree on those and on everything but the board are in the same phase. */
  lemma PhaseReadsCounts(s: State, t: State)
    requires t == s.(board := t.board)
    requires forall q :: 0 <= q < s.PlayerCount() ==>
      |LandTiles(t, q)| == |LandTiles(s, q)| && PlayerCitadels(t, q) == PlayerCitadels(s, q)
    ensures (AllDonePlacingLands(t) <==> AllDonePlacingLands(s))
      && (AllDonePlacingCitadels(t) <==> AllDonePlacingCitadels(s))
      && (AllDoneChoosingPieces(t) <==> AllDoneChoosingPieces(s))
      && Winner(t) == Winner(s)
  {
    assert t.PlayerCount() == s.PlayerCount() && t.landsPerPlayer == s.landsPerPlayer;
    forall q | 0 <= q < s.PlayerCount()
      ensures IsDonePlacingLands(t, q) == IsDonePlacingLands(s, q)
      ensures IsDonePlacingCitadels(t, q) == IsDonePlacingCitadels(s, q)
      ensures IsDoneChoosingPieces(t, q) == IsDoneChoosingPieces(s, q)
    {
      assert Holding(t, PersonalStash(q)) == Holding(s, PersonalStash(q));
    }
    assert HasCitadels(t) == HasCitadels(s);
  }

  /** Seat q, asked through land_tiles after the seats before it, answers as it would have
      first, and the board moves on to the one the next seat sees. */
  method AskSeat(s: State, q: nat, tag: nat, answers: seq<bool>, board: Board)
    returns (answers': seq<bool>, board': Board)
    requires board == DetachSeats(s.board, q, tag) && board.Valid()
    requires answers == LandsDone(s, q)
    ensures board' == DetachSeats(s.board, q + 1, tag) && board'.Valid()
    ensures answers' == LandsDone(s, q + 1)
  {
    var done, next := IsDonePlacingLandsAsWritten(s.(board := board), q, tag + q);
    DetachSeatsStep(s.board, q, tag, board, next.board);
    SeatAnswers(s, q, tag, board);
    answers' := answers + [done];
    board' := next.board;
  }

  /** Seat q, asked after the seats before it, answers as it would have first. */
  lemma SeatAnswers(s: State, q: nat, tag: nat, board: Board)
    requires board == DetachSeats(s.board, q, tag)
    ensures IsDonePlacingLands(s.(board := board), q) == IsDonePlacingLands(s, q)
  {
    DetachSeatsKeeps(s, q, tag, q);
  }

  /** `[player.is_done_placing_lands for player in self.players]`: each seat in order is
      asked through land_tiles, which leaves that seat's Lands pointing at a throwaway list
      (the one tagged tag + q for seat q). Each answer is the one the seat would give first. */
  method LandAnswers(s: State, tag: nat) returns (answers: seq<bool>, after: State)
    requires s.board.Valid()
    ensures |answers| == s.PlayerCount()
    ensures forall q :: 0 <= q < |answers| ==> (answers[q] <==> IsDonePlacingLands(s, q))
    ensures after == s.(board := DetachSeats(s.board, s.PlayerCount(), tag))
  {
    answers := [];
    var board := s.board;
    var q := 0;
    while q < s.PlayerCount()
      invariant 0 <= q <= s.PlayerCount()
      invariant board == DetachSeats(s.board, q, tag) && board.Valid()
      invariant answers == LandsDone(s, q)
    {
      answers, board := AskSeat(s, q, tag, answers, board);
      q := q + 1;
    }
    after := s.(board := board);
  }

  /** The first n answers of `[player.is_done_placing_lands for player in self.players]`. */
  function LandsDone(s: State, n: nat): (r: seq<bool>)
    ensures |r| == n && forall q :: 0 <= q < n ==> (r[q] <==> IsDonePlacingLands(s, q))
  {
    if n == 0 then [] else LandsDone(s, n - 1) + [IsDonePlacingLands(s, n - 1)]
  }

  /** Game.phase as written: every seat answers through land_tiles, and the later checks
      read the board so changed. The phase is the one Phase gives. */
  method PhaseAsWritten(s: State, tag: nat) returns (phase: GamePhase, after: State)
    requires s.board.Valid()
    ensures phase == Phase(s)
    ensures after == s.(board := DetachSeats(s.board, s.PlayerCount(), tag))
  {
    var answers;
    answers, after := LandAnswers(s, tag);
    forall r | 0 <= r < s.PlayerCount()
      ensures |LandTiles(after, r)| == |LandTiles(s, r)| && PlayerCitadels(after, r) == PlayerCitadels(s, r)
    {
      DetachSeatsKeeps(s, s.PlayerCount(), tag, r);
    }
    PhaseReadsCounts(s, after);
    if false in answers {
      phase := LandPlacement;
    } else if !AllDonePlacingCitadels(after) {
      phase := CitadelPlacement;
    } else if !AllDoneChoosingPieces(after) {
      phase := PieceSelection;
    } else if Winner(after).None? {
      phase := Battle;
    } else {
      phase := End;
    }
  }
}
