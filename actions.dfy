/** The action layer of citadel/piece.py, citadel/entity.py and citadel/player.py: what each
    kind checks before one of its actions, what the action does in a live (validating) game,
    and how a player resolves and performs an action. */
module Actions {
  import opened Util
  import opened Entities
  import opened Boards
  import opened Connectivity
  import opened Pieces
  import opened Games
  import opened Coherence
  import opened Players
  import opened Rules

  /** Reading an attribute a plain EntityList does not have. */
  function NoAttribute(name: string): Error {
    AttributeError("'EntityList' object has " + "no attribute '" + name + "'")
  }

  /** Game.get_equivalent refusing a plain list as the target of a simulation. */
  const ListNotEquivalent := TypeError("Object must be a Player " + "or Entity, not <class " + "'citadel.entity." + "EntityList'>.")

  // ---------------------------------------------------------------------------------------
  // What each kind checks

  /** Bird.can_move: on the board with the target, in a straight line, then game.can_move. */
  function BirdCanMove(s: State, e: Entity, at: Resolved, p: PlayerId): (r: Result<BoolWithReason>)
    ensures at.InList? ==> r.Err?
    ensures r == Ok(Pass) ==> (at.AtTile? && IsOnBoard(e) && Vector(e.location.at, at.c).IsStraight()
       && CanMove(s, e, at.c, p) == Ok(Pass))
  {
    match at
    case InList(_) => Err(NoAttribute("board"))
    case AtTile(c) =>
      if !IsOnBoard(e) then Ok(Fail(EntityText(e) + (" is not on the board " + "with ") + Target(s, c)))
      else if !Vector(e.location.at, c).IsStraight() then Ok(Fail("Bird can only move in a " + "straight line"))
      else CanMove(s, e, c, p)
  }

  /** Bird.can_capture: on the board with the target, in a straight line, then game.can_capture. */
  function BirdCanCapture(s: State, e: Entity, at: Resolved, p: PlayerId): (r: Result<BoolWithReason>)
    ensures at.InList? ==> r.Err?
    ensures r == Ok(Pass) ==> (at.AtTile? && IsOnBoard(e) && Vector(e.location.at, at.c).IsStraight()
       && CanCapture(s, e, at.c, p) == Ok(Pass))
  {
    match at
    case InList(_) => Err(NoAttribute("board"))
    case AtTile(c) =>
      if !IsOnBoard(e) then Ok(Fail(EntityText(e) + (" is not on the board " + "with ") + Target(s, c)))
      else if !Vector(e.location.at, c).IsStraight() then Ok(Fail("Bird can only capture " + "in a straight line"))
      else CanCapture(s, e, c, p)
  }

  /** Knight.can_move: on the board with the target, to one of the eight neighbours, then
      game.can_move. */
  function KnightCanMove(s: State, e: Entity, at: Resolved, p: PlayerId): (r: Result<BoolWithReason>)
    ensures at.InList? ==> r.Err?
    ensures r == Ok(Pass) ==> (at.AtTile? && IsOnBoard(e) && at.c in Neighbours(e.location.at)
       && CanMove(s, e, at.c, p) == Ok(Pass))
  {
    match at
    case InList(_) => Err(NoAttribute("board"))
    case AtTile(c) =>
      if !IsOnBoard(e) then Ok(Fail(EntityText(e) + (" is not on the board " + "with ") + Target(s, c)))
      else if c !in Neighbours(e.location.at) then Ok(Fail(EntityText(e) + (" can only move one " + "square at a time")))
      else CanMove(s, e, c, p)
  }

  /** Knight.can_capture: the same two tests (its first message reads "is not the board with"),
      then game.can_capture. */
  function KnightCanCapture(s: State, e: Entity, at: Resolved, p: PlayerId): (r: Result<BoolWithReason>)
    ensures at.InList? ==> r.Err?
    ensures r == Ok(Pass) ==> (at.AtTile? && IsOnBoard(e) && at.c in Neighbours(e.location.at)
       && CanCapture(s, e, at.c, p) == Ok(Pass))
  {
    match at
    case InList(_) => Err(NoAttribute("board"))
    case AtTile(c) =>
      if !IsOnBoard(e) then Ok(Fail(EntityText(e) + " is not the board with " + Target(s, c)))
      else if c !in Neighbours(e.location.at) then
        Ok(Fail(EntityText(e) + " cannot capture at " + Target(s, c) + ("; it is more than one " + "square away")))
      else CanCapture(s, e, c, p)
  }

  /** Entity.can_place, which Bird and Knight inherit: game.can_place. */
  function EntityCanPlace(s: State, e: Entity, at: Resolved, p: PlayerId): (r: Result<BoolWithReason>)
    ensures at.InList? ==> r.Err?
    ensures r == Ok(Pass) ==> at.AtTile? && CanPlace(s, e, at.c, p) == Pass
  {
    match at
    case InList(_) => Err(NoAttribute("coordinate"))
    case AtTile(c) => Ok(CanPlace(s, e, c, p))
  }

  /** Land.can_place: next to a Land, or the first Land of the board, then game.can_place. */
  function LandCanPlace(s: State, e: Entity, at: Resolved, p: PlayerId): (r: Result<BoolWithReason>)
    ensures at.InList? ==> r.Err?
    ensures r == Ok(Pass) ==> at.AtTile? && LandMayGoAt(s.board, at.c) && CanPlace(s, e, at.c, p) == Pass
  {
    match at
    case InList(_) => Err(NoAttribute("get_adjacent_tiles"))
    case AtTile(c) =>
      if !LandMayGoAt(s.board, c) then Ok(Fail("Land tile must be " + "placed adjacent to " + "another land tile"))
      else Ok(CanPlace(s, e, c, p))
  }

  /** Citadel.can_place: the game simulated through the placement must keep the citadels
      connected (the simulation can raise), then game.can_place. */
  function CitadelCanPlace(s: State, e: Entity, at: Resolved, p: PlayerId): (r: Result<BoolWithReason>)
    ensures at.InList? ==> r.Err?
    ensures r == Ok(Pass) ==> (at.AtTile? && Simulate(s, e, PlaceVerb, at.c, p).Ok?
       && CitadelsConnected(Simulate(s, e, PlaceVerb, at.c, p).value.board) && CanPlace(s, e, at.c, p) == Pass)
  {
    match at
    case InList(_) => Err(ListNotEquivalent)
    case AtTile(c) =>
      match Simulate(s, e, PlaceVerb, c, p)
      case Err(err) => Err(err)
      case Ok(g) =>
        if !CitadelsConnected(g.board) then Ok(Fail("Citadels must be " + "connected."))
        else Ok(CanPlace(s, e, c, p))
  }

  /** `actions[name].can_use`: the test the kind attaches to the verb. */
  function CanUse(s: State, e: Entity, verb: Verb, at: Resolved, p: PlayerId): (r: Result<BoolWithReason>)
    requires Offers(e.kind, verb.Name())
    ensures at.InList? ==> r.Err?
    ensures r == Ok(Pass) ==> at.AtTile?
    ensures r == Ok(Pass) && verb == PlaceVerb ==> CanPlace(s, e, at.c, p) == Pass
    ensures r == Ok(Pass) && verb == MoveVerb ==> IsOnBoard(e) && CanMove(s, e, at.c, p) == Ok(Pass)
    ensures r == Ok(Pass) && verb == CaptureVerb ==> IsOnBoard(e) && CanCapture(s, e, at.c, p) == Ok(Pass)
  {
    VerbOffered(e.kind, verb);
    match verb
    case PlaceVerb =>
      if e.kind == Land then LandCanPlace(s, e, at, p)
      else if e.kind == Citadel then CitadelCanPlace(s, e, at, p)
      else EntityCanPlace(s, e, at, p)
    case MoveVerb => if e.kind == Bird then BirdCanMove(s, e, at, p) else KnightCanMove(s, e, at, p)
    case CaptureVerb => if e.kind == Bird then BirdCanCapture(s, e, at, p) else KnightCanCapture(s, e, at, p)
  }

  // ---------------------------------------------------------------------------------------
  // What each kind checks, in terms of the game

  /** Where a piece of the kind may go in one move or capture. */
  predicate Reaches(k: Kind, from: Coordinate, to: Coordinate) {
    if k == Bird then Vector(from, to).IsStraight() else to in Neighbours(from)
  }

  /** A Bird or a Knight may move exactly when it is on the board, the target is within its
      reach and admits it, the player owns it, and the board after the move keeps its
      citadels connected. */
  lemma MoveRuleMeans(s: State, e: Entity, k: nat, c: Coordinate, p: PlayerId)
    requires Coherent(s) && k < |Holding(s, e.location)| && Holding(s, e.location)[k] == e
    requires Offers(e.kind, MoveVerb.Name())
    ensures CanUse(s, e, MoveVerb, AtTile(c), p) == Ok(Pass) <==>
      && IsOnBoard(e) && Reaches(e.kind, e.location.at, c)
      && CanAdd(TileAt(s.board, c).entities, e).Pass? && e.owner == Some(p)
      && MoveEffect(s, e, c).raised.None? && CitadelsConnected(MoveEffect(s, e, c).state.board)
  {
    VerbOffered(e.kind, MoveVerb);
    MoveUseIsCheck(s, e, c, p);
    if IsOnBoard(e) {
      CanMoveMeans(s, e, k, c, p);
    }
  }

  /** The kind's own move check comes down to game.can_move once the piece is on the board
      and the target within reach. */
  lemma MoveUseIsCheck(s: State, e: Entity, c: Coordinate, p: PlayerId)
    requires e.kind == Bird || e.kind == Knight
    ensures Offers(e.kind, MoveVerb.Name())
    ensures CanUse(s, e, MoveVerb, AtTile(c), p) == Ok(Pass) <==>
      IsOnBoard(e) && Reaches(e.kind, e.location.at, c) && CanMove(s, e, c, p) == Ok(Pass)
  {
    VerbOffered(e.kind, MoveVerb);
    if e.kind == Bird {
      assert CanUse(s, e, MoveVerb, AtTile(c), p) == BirdCanMove(s, e, AtTile(c), p);
    } else {
      assert CanUse(s, e, MoveVerb, AtTile(c), p) == KnightCanMove(s, e, AtTile(c), p);
    }
  }

  /** A Bird or a Knight may capture exactly when it is on the board, the target is within
      its reach and holds a piece, and the board after the capture and the move onto the tile
      keeps its citadels connected; whose piece it is is not asked. */
  lemma CaptureRuleMeans(s: State, e: Entity, k: nat, c: Coordinate, p: PlayerId)
    requires Coherent(s) && k < |Holding(s, e.location)| && Holding(s, e.location)[k] == e
    requires Offers(e.kind, CaptureVerb.Name())
    ensures CanUse(s, e, CaptureVerb, AtTile(c), p) == Ok(Pass) <==>
      && IsOnBoard(e) && Reaches(e.kind, e.location.at, c) && Victim(s, c).Some?
      && AttackEffect(s, e, c).raised.None? && CitadelsConnected(AttackEffect(s, e, c).state.board)
  {
    VerbOffered(e.kind, CaptureVerb);
    CaptureUseIsCheck(s, e, c, p);
    if IsOnBoard(e) {
      CanCaptureMeans(s, e, k, c, p);
    }
  }

  /** The kind's own capture check comes down to game.can_capture once the piece is on the
      board and the target within reach. */
  lemma CaptureUseIsCheck(s: State, e: Entity, c: Coordinate, p: PlayerId)
    requires e.kind == Bird || e.kind == Knight
    ensures Offers(e.kind, CaptureVerb.Name())
    ensures CanUse(s, e, CaptureVerb, AtTile(c), p) == Ok(Pass) <==>
      IsOnBoard(e) && Reaches(e.kind, e.location.at, c) && CanCapture(s, e, c, p) == Ok(Pass)
  {
    VerbOffered(e.kind, CaptureVerb);
    if e.kind == Bird {
      assert CanUse(s, e, CaptureVerb, AtTile(c), p) == BirdCanCapture(s, e, AtTile(c), p);
    } else {
      assert CanUse(s, e, CaptureVerb, AtTile(c), p) == KnightCanCapture(s, e, AtTile(c), p);
    }
  }

  /** Anything that can be placed may be placed where game.can_place allows it, except that a
      Land needs Land next to it (or none on the board) and a Citadel, found as itself by the
      simulation, must leave the citadels connected after its placement. */
  lemma PlaceRuleMeans(s: State, e: Entity, c: Coordinate, p: PlayerId)
    requires Structure(s) && Offers(e.kind, PlaceVerb.Name())
    requires e.kind == Citadel ==> GetEquivalent(s, e) == Ok(Some(e))
    ensures CanUse(s, e, PlaceVerb, AtTile(c), p) == Ok(Pass) <==>
      && CanPlace(s, e, c, p).Pass?
      && (e.kind == Land ==> LandMayGoAt(s.board, c))
      && (e.kind == Citadel ==>
            PlaceEffect(s, e, c, p).raised.None? && CitadelsConnected(PlaceEffect(s, e, c, p).state.board))
  {
    VerbOffered(e.kind, PlaceVerb);
    if e.kind == Citadel {
      SimulateIsExecute(s, e, PlaceVerb, c, p);
    }
  }

  /** A target that is not a tile is refused by every check, with the error of the attribute
      or lookup the test tries first. */
  lemma ListTargetRaises(s: State, e: Entity, verb: Verb, loc: Location, p: PlayerId)
    requires Offers(e.kind, verb.Name())
    ensures CanUse(s, e, verb, InList(loc), p).Err?
    ensures CanUse(s, e, verb, InList(loc), p).error ==
      if verb != PlaceVerb then NoAttribute("board")
      else if e.kind == Land then NoAttribute("get_adjacent_tiles")
      else if e.kind == Citadel then ListNotEquivalent
      else NoAttribute("coordinate")
  {
    VerbOffered(e.kind, verb);
  }

  // ---------------------------------------------------------------------------------------
  // Capturing with a Bird or a Knight

  /** Bird.capture and Knight.capture in a live game: the validated game.capture, then the
      validated game.move of the attacker onto the tile. */
  function Attack(s: State, e: Entity, c: Coordinate, p: PlayerId): (r: Outcome<State>)
    ensures CanCapture(s, e, c, p) != Ok(Pass) ==> r.state == s && r.raised.Some?
    ensures CanCapture(s, e, c, p).Err? ==> r.raised == Some(CanCapture(s, e, c, p).error)
    ensures CanCapture(s, e, c, p).Ok? && CanCapture(s, e, c, p).value.Fail? ==>
      r.raised == Some(CaptureFailure(s, e, c, CanCapture(s, e, c, p).value.why))
    ensures r.raised.None? ==> CanCapture(s, e, c, p) == Ok(Pass) && e.owner == Some(p)
  {
    var captured := Capture(s, e, c, p);
    if captured.raised.Some? then captured else Move(captured.state, Attacker(s, e, c), c, p)
  }

  /** Corrected: the same on top of the corrected game.capture. */
  function AttackCorrected(s: State, e: Entity, c: Coordinate, p: PlayerId): (r: Outcome<State>)
    ensures CanCaptureCorrected(s, e, c, p) != Ok(Pass) ==> r.state == s && r.raised.Some?
    ensures e.owner != Some(p) ==> r.state == s && r.raised.Some?
  {
    var captured := CaptureCorrected(s, e, c, p);
    if captured.raised.Some? then captured else Move(captured.state, Attacker(s, e, c), c, p)
  }

  /** As written, capturing with another player's piece gets past game.capture: the victim is
      already in the graveyard when the move that should follow is refused, so the action
      raises with the game changed. */
  lemma ForeignAttackCommitsThenRaises(s: State, e: Entity, c: Coordinate, p: PlayerId)
    requires Structure(s) && CanCapture(s, e, c, p) == Ok(Pass) && e.owner != Some(p)
    ensures Attack(s, e, c, p).raised.Some?
    ensures Attack(s, e, c, p).raised.value.PlacementError?
    ensures Attack(s, e, c, p).state == CaptureEffect(s, c).state
    ensures |Attack(s, e, c, p).state.graveyard| == |s.graveyard| + 1
  {
    VictimIsHeld(s, c);
    var kv :| 0 <= kv < |Holding(s, OnTile(c))| && Holding(s, OnTile(c))[kv] == Victim(s, c).value;
    CaptureIsEffect(s, c, kv);
    var after := CaptureEffect(s, c).state;
    assert Capture(s, e, c, p) == CaptureEffect(s, c);
    assert Holding(after, Graveyard) == Captured(s, c, kv, Graveyard);
    ForeignMoveRaises(after, Attacker(s, e, c), c, p);
  }

  /** A validated move of another player's piece raises PlacementError and changes nothing. */
  lemma ForeignMoveRaises(s: State, e: Entity, c: Coordinate, p: PlayerId)
    requires e.owner != Some(p)
    ensures Move(s, e, c, p).raised.Some? && Move(s, e, c, p).raised.value.PlacementError?
    ensures Move(s, e, c, p).state == s
  {
  }

  /** Corrected, the same attempt is refused before anything changes. */
  lemma ForeignAttackRefused(s: State, e: Entity, c: Coordinate, p: PlayerId)
    requires e.owner != Some(p)
    ensures AttackCorrected(s, e, c, p).state == s && AttackCorrected(s, e, c, p).raised.Some?
    ensures HasPieceAt(s, c) ==> AttackCorrected(s, e, c, p).raised == Some(CaptureFailure(s, e, c,
      "Cannot capture with " + EntityText(e) + ": not owned by player '" + PlayerName(p) + "'."))
  {
  }

  /** An attack whose capture check does not pass raises what game.capture raises, the
      PlacementError with the reason or the check's own exception, and changes nothing. */
  lemma AttackRefused(s: State, e: Entity, c: Coordinate, p: PlayerId)
    requires CanCapture(s, e, c, p) != Ok(Pass)
    ensures Attack(s, e, c, p).raised.Some? && Attack(s, e, c, p).state == s
    ensures Attack(s, e, c, p).raised == Some(match CanCapture(s, e, c, p)
      case Err(err) => err
      case Ok(verdict) => CaptureFailure(s, e, c, verdict.why))
  {
    assert Attack(s, e, c, p) == Capture(s, e, c, p);
  }

  /** The attack whose capture check passes. */
  lemma AttackPassedKeeps(s: State, e: Entity, k: nat, c: Coordinate, p: PlayerId)
    requires Coherent(s) && k < |Holding(s, e.location)| && Holding(s, e.location)[k] == e
    requires e.location.OnTile? && (e.kind == Bird || e.kind == Knight)
    requires p < s.PlayerCount() && CanCapture(s, e, c, p) == Ok(Pass)
    ensures Coherent(Attack(s, e, c, p).state)
    ensures Attack(s, e, c, p).state.turn == s.turn
    ensures Attack(s, e, c, p).raised.Some? ==> Attack(s, e, c, p).state == CaptureEffect(s, c).state
    ensures Attack(s, e, c, p).raised.None? ==> AttackEffect(s, e, c).raised.None?
    ensures Attack(s, e, c, p).raised.None? ==>
      && e.owner == Some(p) && Victim(s, c).Some? && Victim(s, c).value.LayerOf() == Layer.Piece
      && Attack(s, e, c, p).state == AttackEffect(s, e, c).state
      && CitadelsConnected(Attack(s, e, c, p).state.board)
  {
    VerbOffered(e.kind, CaptureVerb);
    AttackCommitted(s, e, k, c, p);
    CanCaptureMeans(s, e, k, c, p);
    Rules.CaptureKeeps(s, e, k, c, p);
    var after := CaptureEffect(s, c).state;
    var moved := Move(after, Attacker(s, e, c), c, p);
    assert Attack(s, e, c, p) == moved;
    assert AttackEffect(s, e, c) == MoveEffect(after, Attacker(s, e, c), c);
  }

  /** Once a passed capture has taken its victim, the attacker's validated move keeps the
      invariant, and either completes as the unvalidated move or changes nothing. */
  lemma AttackCommitted(s: State, e: Entity, k: nat, c: Coordinate, p: PlayerId)
    requires Coherent(s) && k < |Holding(s, e.location)| && Holding(s, e.location)[k] == e
    requires e.location.OnTile? && e.LayerOf() == Layer.Piece && p < s.PlayerCount()
    requires CanCapture(s, e, c, p) == Ok(Pass)
    ensures CaptureEffect(s, c).raised.None? && Capture(s, e, c, p) == CaptureEffect(s, c)
    ensures var after := CaptureEffect(s, c).state;
      var moved := Move(after, Attacker(s, e, c), c, p);
      && Coherent(moved.state) && after.turn == s.turn && moved.state.turn == s.turn
      && (moved.raised.Some? ==> moved.state == after)
      && (moved.raised.None? ==> moved.state == MoveEffect(after, Attacker(s, e, c), c).state && e.owner == Some(p))
  {
    var kv := CapturePassed(s, e, k, c, p);
    CaptureIsEffect(s, c, kv);
    Coherence.CaptureKeeps(s, c, kv);
    var after := CaptureEffect(s, c).state;
    var ka := AttackerHeld(s, e, k, c, kv);
    var a := Attacker(s, e, c);
    assert Holding(after, a.location) == Captured(s, c, kv, a.location);
    MoveKeeps(after, a, ka, c, p);
    MoveTurn(after, a, ka, c, p);
  }

  /** The validated move keeps the turn. */
  lemma MoveTurn(s: State, e: Entity, k: nat, c: Coordinate, p: PlayerId)
    requires Structure(s) && k < |Holding(s, e.location)| && Holding(s, e.location)[k] == e
    ensures Move(s, e, c, p).state.turn == s.turn
  {
    if CanMove(s, e, c, p) == Ok(Pass) {
      MoveNeedsAdmission(s, e, k, c);
      MoveEffectIsTransfer(s, e, k, c);
    }
  }

  // ---------------------------------------------------------------------------------------
  // Executing an action

  /** `actions[name].execute` in a live game. */
  function Act(s: State, e: Entity, verb: Verb, c: Coordinate, p: PlayerId): (r: Outcome<State>)
    ensures r.raised.None? && verb == PlaceVerb ==> CanPlace(s, e, c, p) == Pass
    ensures r.raised.None? && verb == MoveVerb ==> CanMove(s, e, c, p) == Ok(Pass)
    ensures r.raised.None? && verb == CaptureVerb ==> CanCapture(s, e, c, p) == Ok(Pass)
    ensures r.raised.None? && verb != PlaceVerb ==> e.owner == Some(p)
  {
    match verb
    case PlaceVerb => Rules.Place(s, e, c, p)
    case MoveVerb => Move(s, e, c, p)
    case CaptureVerb => Attack(s, e, c, p)
  }

  /** A Citadel placed as its own check allows leaves the citadels connected. */
  lemma CitadelPlaceConnects(s: State, e: Entity, c: Coordinate, p: PlayerId)
    requires Structure(s) && e.kind == Citadel && GetEquivalent(s, e) == Ok(Some(e))
    requires CanUse(s, e, PlaceVerb, AtTile(c), p) == Ok(Pass)
    ensures Act(s, e, PlaceVerb, c, p).raised.None?
    ensures CitadelsConnected(Act(s, e, PlaceVerb, c, p).state.board)
  {
    VerbOffered(e.kind, PlaceVerb);
    PlaceRuleMeans(s, e, c, p);
    assert CanPlace(s, e, c, p).Pass?;
    assert Act(s, e, PlaceVerb, c, p) == PlaceEffect(s, e, c, p);
  }

  /** A live action either keeps the invariant and does what the unvalidated action does, or
      raises. A refused placement or move changes nothing; a refused capture changes nothing
      or has taken its victim only. */
  lemma ActKeeps(s: State, e: Entity, k: nat, verb: Verb, c: Coordinate, p: PlayerId)
    requires Coherent(s) && k < |Holding(s, e.location)| && Holding(s, e.location)[k] == e
    requires Offers(e.kind, verb.Name()) && p < s.PlayerCount()
    requires verb != PlaceVerb ==> e.location.OnTile?
    ensures Coherent(Act(s, e, verb, c, p).state)
    ensures Act(s, e, verb, c, p).state.turn == s.turn
    ensures Act(s, e, verb, c, p).raised.None? ==>
      Execute(s, e, verb, c, p).raised.None? && Act(s, e, verb, c, p).state == Execute(s, e, verb, c, p).state
    ensures Act(s, e, verb, c, p).raised.Some? && verb != CaptureVerb ==> Act(s, e, verb, c, p).state == s
    ensures Act(s, e, verb, c, p).raised.None? && verb != PlaceVerb ==>
      CitadelsConnected(Act(s, e, verb, c, p).state.board)
  {
    VerbOffered(e.kind, verb);
    match verb {
      case PlaceVerb => PlaceActKeeps(s, e, k, c, p);
      case MoveVerb => MoveActKeeps(s, e, k, c, p);
      case CaptureVerb => CaptureActKeeps(s, e, k, c, p);
    }
  }

  lemma PlaceActKeeps(s: State, e: Entity, k: nat, c: Coordinate, p: PlayerId)
    requires Coherent(s) && k < |Holding(s, e.location)| && Holding(s, e.location)[k] == e
    requires p < s.PlayerCount()
    ensures var done := Rules.Place(s, e, c, p);
      && Coherent(done.state) && done.state.turn == s.turn
      && (done.raised.None? ==> PlaceEffect(s, e, c, p).raised.None? && done.state == PlaceEffect(s, e, c, p).state)
      && (done.raised.Some? ==> done.state == s)
  {
    PlaceKeeps(s, e, k, c, p);
    if CanPlace(s, e, c, p).Pass? {
      PlaceableLocation(s, e, k, p);
      PlaceEffectIsTransfer(s, e, k, c, p);
    }
  }

  lemma MoveActKeeps(s: State, e: Entity, k: nat, c: Coordinate, p: PlayerId)
    requires Coherent(s) && k < |Holding(s, e.location)| && Holding(s, e.location)[k] == e
    requires (e.kind == Bird || e.kind == Knight) && p < s.PlayerCount() && e.location.OnTile?
    ensures var done := Move(s, e, c, p);
      && Coherent(done.state) && done.state.turn == s.turn
      && (done.raised.None? ==> MoveEffect(s, e, c).raised.None? && done.state == MoveEffect(s, e, c).state)
      && (done.raised.Some? ==> done.state == s)
      && (done.raised.None? ==> CitadelsConnected(done.state.board))
  {
    MoveKeeps(s, e, k, c, p);
    MoveConnects(s, e, k, c, p);
    if CanMove(s, e, c, p) == Ok(Pass) {
      MoveEffectIsTransfer(s, e, k, c);
    }
  }

  lemma CaptureActKeeps(s: State, e: Entity, k: nat, c: Coordinate, p: PlayerId)
    requires Coherent(s) && k < |Holding(s, e.location)| && Holding(s, e.location)[k] == e
    requires (e.kind == Bird || e.kind == Knight) && p < s.PlayerCount() && e.location.OnTile?
    ensures var done := Attack(s, e, c, p);
      && Coherent(done.state) && done.state.turn == s.turn
      && (done.raised.Some? ==> done.state == s || done.state == CaptureEffect(s, c).state)
      && (done.raised.None? ==> AttackEffect(s, e, c).raised.None? && done.state == AttackEffect(s, e, c).state)
      && (done.raised.None? ==> e.owner == Some(p) && Victim(s, c).Some? && Victim(s, c).value.LayerOf() == Layer.Piece)
      && (done.raised.None? ==> CitadelsConnected(done.state.board))
  {
    if CanCapture(s, e, c, p) == Ok(Pass) {
      AttackPassedKeeps(s, e, k, c, p);
    } else {
      AttackRefused(s, e, c, p);
    }
  }

  // ---------------------------------------------------------------------------------------
  // A player's actions

  /** Player.can_perform_action: resolve the target, then the entity; an action the entity
      does not offer is refused; otherwise the action's own check decides. */
  function CanPerformAction(s: State, p: PlayerId, ref: EntityRef, name: string, target: TargetRef): (r: Result<BoolWithReason>)
    ensures ToTile(target).Err? || ToEntity(s, p, ref).Err? ==> r.Err?
    ensures r == Ok(Pass) ==> (ToTile(target).Ok? && ToTile(target).value.AtTile? && ToEntity(s, p, ref).Ok?
       && Offers(ToEntity(s, p, ref).value.kind, name))
  {
    match ToTile(target)
    case Err(err) => Err(err)
    case Ok(at) =>
      match ToEntity(s, p, ref)
      case Err(err) => Err(err)
      case Ok(e) =>
        if !Offers(e.kind, name) then Ok(Fail("Action '" + name + "' not found on " + EntityText(e) + "."))
        else
          OfferedNamesAreVerbs(e.kind, name);
          CanUse(s, e, VerbNamed(name).value, at, p)
  }

  /** Player.perform_action in a live game: resolve the target and the entity, check the
      action with can_perform_action (a refusal raises ActionError with its reason), execute
      it, and end the turn. An exception from the execution escapes before the turn ends. */
  function PerformAction(s: State, p: PlayerId, ref: EntityRef, name: string, target: TargetRef): (r: Outcome<State>)
    ensures r.raised.None? ==> (ToTile(target).Ok? && ToTile(target).value.AtTile? && ToEntity(s, p, ref).Ok?
       && Offers(ToEntity(s, p, ref).value.kind, name))
  {
    match ToTile(target)
    case Err(err) => Outcome(s, Some(err))
    case Ok(at) =>
      match ToEntity(s, p, ref)
      case Err(err) => Outcome(s, Some(err))
      case Ok(e) =>
        match CanPerformAction(s, p, ByEntity(e), name, Passed(at))
        case Err(err) => Outcome(s, Some(err))
        case Ok(Fail(why)) => Outcome(s, Some(ActionError(why)))
        case Ok(Pass) =>
          PassedOnTile(s, p, e, name, at);
          var done := Act(s, e, VerbNamed(name).value, at.c, p);
          if done.raised.Some? then done else Outcome(EndTurn(done.state), None)
  }

  /** An action that completes is checked as can_perform_action checks it when called
      directly, and the turn ends exactly when the action completes. */
  lemma PerformActionChecks(s: State, p: PlayerId, ref: EntityRef, name: string, target: TargetRef)
    ensures PerformAction(s, p, ref, name, target).raised.None? ==> CanPerformAction(s, p, ref, name, target) == Ok(Pass)
    ensures CanPerformAction(s, p, ref, name, target) != Ok(Pass) ==>
      PerformAction(s, p, ref, name, target).state == s && PerformAction(s, p, ref, name, target).raised.Some?
    ensures (ToTile(target).Ok? && ToTile(target).value.AtTile? &&
      CanPerformAction(s, p, ref, name, target).Ok? && CanPerformAction(s, p, ref, name, target).value.Fail?) ==>
      PerformAction(s, p, ref, name, target).raised == Some(ActionError(CanPerformAction(s, p, ref, name, target).value.why))
  {
    match ToTile(target)
    case Err(_) =>
    case Ok(at) =>
      ToTileTwice(target);
  }

  /** The acting entity a player names is held by a coherent game. */
  lemma ResolvedHeld(s: State, p: PlayerId, ref: EntityRef) returns (k: nat)
    requires Structure(s) && ToEntity(s, p, ref).Ok?
    requires ref.ByEntity? ==> Holds(s, ref.e)
    ensures var e := ToEntity(s, p, ref).value; k < |Holding(s, e.location)| && Holding(s, e.location)[k] == e
  {
    var e := ToEntity(s, p, ref).value;
    match ref
    case ByEntity(_) =>
      k :| 0 <= k < |Holding(s, e.location)| && Holding(s, e.location)[k] == e;
    case ByCell(c) =>
      ToEntityAtCell(s, p, c);
      var H := Holding(s, OnTile(c));
      k :| 0 <= k < |H| && H[k] == e;
    case ByType(t) =>
      ToEntityByType(s, p, t);
      var H := Holding(s, PersonalStash(p));
      k :| 0 <= k < |H| && H[k] == e;
  }

  /** Performing an action keeps the invariant. When it completes, the target was a tile,
      the entity offered the action, and the game is the unvalidated action's result with the
      turn passed on; a move or a capture leaves the citadels connected. A refused check
      changes nothing and keeps the turn. */
  lemma PerformKeeps(s: State, p: PlayerId, ref: EntityRef, name: string, target: TargetRef)
    requires Coherent(s) && p < s.PlayerCount()
    requires ref.ByEntity? ==> Holds(s, ref.e)
    ensures Coherent(PerformAction(s, p, ref, name, target).state)
    ensures PerformAction(s, p, ref, name, target).raised.Some? ==> PerformAction(s, p, ref, name, target).state.turn == s.turn
    ensures PerformAction(s, p, ref, name, target).raised.None? ==>
      && ToTile(target).Ok? && ToTile(target).value.AtTile? && ToEntity(s, p, ref).Ok?
      && VerbNamed(name).Some? && Offers(ToEntity(s, p, ref).value.kind, name)
      && var e, verb, c := ToEntity(s, p, ref).value, VerbNamed(name).value, ToTile(target).value.c;
         && Execute(s, e, verb, c, p).raised.None?
         && PerformAction(s, p, ref, name, target).state == EndTurn(Execute(s, e, verb, c, p).state)
         && (verb != PlaceVerb ==> CitadelsConnected(PerformAction(s, p, ref, name, target).state.board))
  {
    if Committed(s, p, ref, name, target) {
      var at := ToTile(target).value;
      var e := ToEntity(s, p, ref).value;
      PerformCommits(s, p, ref, name, target, e, at);
      var verb := VerbNamed(name).value;
      var k := ResolvedHeld(s, p, ref);
      ActKeeps(s, e, k, verb, at.c, p);
      var done := Act(s, e, verb, at.c, p);
      EndTurnKeeps(done.state);
    } else {
      PerformRefused(s, p, ref, name, target);
    }
  }

  /** Whether the target and the entity resolve and can_perform_action passes. */
  predicate Committed(s: State, p: PlayerId, ref: EntityRef, name: string, target: TargetRef) {
    && ToTile(target).Ok? && ToEntity(s, p, ref).Ok?
    && CanPerformAction(s, p, ByEntity(ToEntity(s, p, ref).value), name, Passed(ToTile(target).value)) == Ok(Pass)
  }

  /** A refused or unresolved action changes nothing. It raises the error of the target's or
      the entity's resolution, the exception of the check, or ActionError with the check's
      reason. */
  lemma PerformRefused(s: State, p: PlayerId, ref: EntityRef, name: string, target: TargetRef)
    requires !Committed(s, p, ref, name, target)
    ensures PerformAction(s, p, ref, name, target).raised.Some?
    ensures PerformAction(s, p, ref, name, target).state == s
    ensures PerformAction(s, p, ref, name, target).raised.value == match ToTile(target)
      case Err(err) => err
      case Ok(at) =>
        match ToEntity(s, p, ref)
        case Err(err) => err
        case Ok(e) =>
          match CanPerformAction(s, p, ByEntity(e), name, Passed(at))
          case Err(err) => err
          case Ok(verdict) => ActionError(verdict.why)
  {
  }

  /** A passed check leads to the action on a tile, the piece already on the board when the
      action is a move or a capture. */
  lemma PerformCommits(s: State, p: PlayerId, ref: EntityRef, name: string, target: TargetRef, e: Entity, at: Resolved)
    requires ToTile(target) == Ok(at) && ToEntity(s, p, ref) == Ok(e)
    requires CanPerformAction(s, p, ByEntity(e), name, Passed(at)) == Ok(Pass)
    ensures at.AtTile? && Offers(e.kind, name) && VerbNamed(name).Some?
    ensures VerbNamed(name).value != PlaceVerb ==> e.location.OnTile?
    ensures var done := Act(s, e, VerbNamed(name).value, at.c, p);
      PerformAction(s, p, ref, name, target) == if done.raised.Some? then done else Outcome(EndTurn(done.state), None)
  {
    PassedOnTile(s, p, e, name, at);
    ToTileTwice(target);
  }

  /** A passed check was made for an action the entity offers, on a tile. */
  lemma PassedOnTile(s: State, p: PlayerId, e: Entity, name: string, at: Resolved)
    requires CanPerformAction(s, p, ByEntity(e), name, Passed(at)) == Ok(Pass)
    ensures at.AtTile? && Offers(e.kind, name) && VerbNamed(name).Some?
    ensures VerbNamed(name).value != PlaceVerb ==> e.location.OnTile?
  {
    OfferedNamesAreVerbs(e.kind, name);
    if VerbNamed(name).value != PlaceVerb {
      assert IsOnBoard(e);
    }
  }

  /** Ending the turn touches no list. */
  lemma EndTurnKeeps(s: State)
    requires Coherent(s)
    ensures Coherent(EndTurn(s))
  {
    StructureByHolding(s, EndTurn(s));
  }

  // ---------------------------------------------------------------------------------------
  // Where an entity could act

  /** The test of each key, in key order. */
  function Checks(s: State, e: Entity, verb: Verb, p: PlayerId, keys: seq<Coordinate>): (r: seq<Result<BoolWithReason>>)
    requires Offers(e.kind, verb.Name())
    ensures |r| == |keys| && forall i :: 0 <= i < |keys| ==> r[i] == CanUse(s, e, verb, AtTile(keys[i]), p)
  {
    if |keys| == 0 then [] else [CanUse(s, e, verb, AtTile(keys[0]), p)] + Checks(s, e, verb, p, keys[1..])
  }

  /** The keys whose check passes, in order; the first check that raises makes the whole
      selection raise. */
  function Select(keys: seq<Coordinate>, checks: seq<Result<BoolWithReason>>): Result<seq<Coordinate>>
    requires |checks| == |keys|
  {
    if |keys| == 0 then Ok([])
    else
      match checks[0]
      case Err(err) => Err(err)
      case Ok(ok) =>
        match Select(keys[1..], checks[1..])
        case Err(err) => Err(err)
        case Ok(rest) => if ok.Pass? then Ok([keys[0]] + rest) else Ok(rest)
  }

  /** Entity.get_tiles_by_action as a value: the board's cells in key order whose check
      passes for the named action, performed by the entity's owner; the first check that
      raises makes the whole call raise. A name the entity does not offer selects nothing. */
  function TilesByAction(s: State, e: Entity, name: string, p: PlayerId, keys: seq<Coordinate>): (r: Result<seq<Coordinate>>)
    ensures !Offers(e.kind, name) ==> r == Ok([])
    ensures r.Ok? ==> |r.value| <= |keys| && forall c :: c in r.value ==> c in keys
  {
    if !Offers(e.kind, name) then Ok([])
    else
      OfferedNamesAreVerbs(e.kind, name);
      var verb := VerbNamed(name).value;
      SelectMeans(keys, Checks(s, e, verb, p, keys));
      Select(keys, Checks(s, e, verb, p, keys))
  }

  /** The selected keys are exactly those whose check passes, and the selection raises
      exactly when some check does. */
  lemma {:induction false} SelectMeans(keys: seq<Coordinate>, checks: seq<Result<BoolWithReason>>)
    requires |checks| == |keys|
    ensures var r := Select(keys, checks);
      && (r.Ok? ==> forall c :: c in r.value <==> exists i :: 0 <= i < |keys| && keys[i] == c && checks[i] == Ok(Pass))
      && (r.Ok? ==> |r.value| <= |keys|)
      && (r.Err? <==> exists i :: 0 <= i < |keys| && checks[i].Err?)
    decreases |keys|
  {
    if |keys| > 0 {
      SelectMeans(keys[1..], checks[1..]);
      var r := Select(keys, checks);
      if r.Ok? {
        forall c | c in r.value
          ensures exists i :: 0 <= i < |keys| && keys[i] == c && checks[i] == Ok(Pass)
        {
          if c != keys[0] || checks[0] != Ok(Pass) {
            var j :| 0 <= j < |keys[1..]| && keys[1..][j] == c && checks[1..][j] == Ok(Pass);
            assert keys[j + 1] == c && checks[j + 1] == Ok(Pass);
          }
        }
        forall c, i | 0 <= i < |keys| && keys[i] == c && checks[i] == Ok(Pass)
          ensures c in r.value
        {
          if i > 0 {
            assert keys[1..][i - 1] == c && checks[1..][i - 1] == Ok(Pass);
          }
        }
      }
      if checks[0].Ok? && exists i :: 0 <= i < |keys| && checks[i].Err? {
        var i :| 0 <= i < |keys| && checks[i].Err?;
        assert checks[1..][i - 1].Err?;
      }
      if exists i :: 0 <= i < |keys[1..]| && checks[1..][i].Err? {
        var i :| 0 <= i < |keys[1..]| && checks[1..][i].Err?;
        assert checks[i + 1].Err?;
      }
    }
  }

  /** The cells selected are exactly the cells among the keys whose check passes, in key
      order; when the call raises, the error is that of some cell's check. */
  lemma TilesByActionMeans(s: State, e: Entity, name: string, p: PlayerId, keys: seq<Coordinate>)
    requires Offers(e.kind, name)
    ensures VerbNamed(name).Some?
    ensures var r := TilesByAction(s, e, name, p, keys);
      && (r.Ok? ==> forall c :: c in r.value <==> c in keys && CanUse(s, e, VerbNamed(name).value, AtTile(c), p) == Ok(Pass))
      && (r.Ok? ==> |r.value| <= |keys|)
      && (r.Err? <==> exists i :: 0 <= i < |keys| && CanUse(s, e, VerbNamed(name).value, AtTile(keys[i]), p).Err?)
  {
    OfferedNamesAreVerbs(e.kind, name);
    var verb := VerbNamed(name).value;
    var checks := Checks(s, e, verb, p, keys);
    SelectMeans(keys, checks);
    var r := Select(keys, checks);
    assert TilesByAction(s, e, name, p, keys) == r;
    if r.Ok? {
      forall c ensures c in r.value <==> c in keys && CanUse(s, e, verb, AtTile(c), p) == Ok(Pass) {
        if c in keys && CanUse(s, e, verb, AtTile(c), p) == Ok(Pass) {
          var i :| 0 <= i < |keys| && keys[i] == c;
          assert checks[i] == Ok(Pass);
        }
      }
    }
    if exists i :: 0 <= i < |keys| && checks[i].Err? {
      var i :| 0 <= i < |keys| && checks[i].Err?;
      assert CanUse(s, e, verb, AtTile(keys[i]), p).Err?;
    }
  }

  /** One step of the selection: the first key's check, then the rest. */
  lemma SelectStep(keys: seq<Coordinate>, checks: seq<Result<BoolWithReason>>, i: nat)
    requires |checks| == |keys| && i < |keys|
    ensures Select(keys[i..], checks[i..]) ==
      if checks[i].Err? then Err(checks[i].error)
      else Prefixed(if checks[i].value.Pass? then [keys[i]] else [], Select(keys[i + 1..], checks[i + 1..]))
  {
    assert keys[i..][1..] == keys[i + 1..];
    assert checks[i..][1..] == checks[i + 1..];
    var rest := Select(keys[i + 1..], checks[i + 1..]);
    assert rest.Ok? ==> [] + rest.value == rest.value;
  }

  /** A result with the cells selected so far put in front. */
  function Prefixed(done: seq<Coordinate>, rest: Result<seq<Coordinate>>): Result<seq<Coordinate>> {
    match rest
    case Err(err) => Err(err)
    case Ok(more) => Ok(done + more)
  }

  lemma PrefixedTwice(a: seq<Coordinate>, b: seq<Coordinate>, r: Result<seq<Coordinate>>)
    ensures Prefixed(a, Prefixed(b, r)) == Prefixed(a + b, r)
  {
    if r.Ok? {
      assert a + (b + r.value) == (a + b) + r.value;
    }
  }

  /** Entity.get_tiles_by_action: the loop over the board's tiles, in key order. */
  method GetTilesByAction(s: State, e: Entity, name: string, p: PlayerId) returns (r: Result<seq<Coordinate>>)
    ensures r == TilesByAction(s, e, name, p, s.board.keys)
  {
    var keys := s.board.keys;
    if !Offers(e.kind, name) {
      return Ok([]);
    }
    OfferedNamesAreVerbs(e.kind, name);
    var verb := VerbNamed(name).value;
    ghost var checks := Checks(s, e, verb, p, keys);
    var tiles: seq<Coordinate> := [];
    var i := 0;
    assert keys[0..] == keys && checks[0..] == checks;
    ghost var whole := Select(keys, checks);
    assert whole.Ok? ==> [] + whole.value == whole.value;
    while i < |keys|
      invariant 0 <= i <= |keys|
      invariant whole == Prefixed(tiles, Select(keys[i..], checks[i..]))
    {
      var check := CanUse(s, e, verb, AtTile(keys[i]), p);
      SelectStep(keys, checks, i);
      if check.Err? {
        return Err(check.error);
      }
      var picked := if check.value.Pass? then [keys[i]] else [];
      PrefixedTwice(tiles, picked, Select(keys[i + 1..], checks[i + 1..]));
      tiles := tiles + picked;
      i := i + 1;
    }
    assert tiles + [] == tiles;
    r := Ok(tiles);
  }
}
