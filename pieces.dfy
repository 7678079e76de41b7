/** The game-independent part of citadel/piece.py: the action lists each kind builds, and the
    board geometry the Land rules read. */
module Pieces {
  import opened Util
  import opened Entities
  import opened Boards

  /** The three verbs an action can name. */
  datatype Verb = PlaceVerb | MoveVerb | CaptureVerb
  {
    function Name(): string {
      match this
      case PlaceVerb => "place"
      case MoveVerb => "move"
      case CaptureVerb => "capture"
    }
  }

  function VerbNamed(name: string): (r: Option<Verb>)
    ensures r.Some? ==> r.value.Name() == name
    ensures r.None? ==> name != "place" && name != "move" && name != "capture"
  {
    if name == "place" then Some(PlaceVerb)
    else if name == "move" then Some(MoveVerb)
    else if name == "capture" then Some(CaptureVerb)
    else None
  }

  /** An entry of an ActionList: its name and description. What it executes and how it is
      checked is given by the verb and the kind (see Actions and Rules). */
  datatype Action = Action(name: string, description: string)

  /** ActionList.add: a dict assignment, so a new name goes last and a known one is replaced
      where it stands. */
  function Add(list: seq<Action>, a: Action): (r: seq<Action>)
    ensures (exists i :: 0 <= i < |list| && list[i].name == a.name) ==> |r| == |list|
    ensures (forall i :: 0 <= i < |list| ==> list[i].name != a.name) ==> r == list + [a]
    ensures forall x :: x in Names(r) <==> x in Names(list) || x == a.name
  {
    if |list| == 0 then
      assert Names([a]) == {a.name} by { NamesCons(a, []); }
      [a]
    else if list[0].name == a.name then
      NamesCons(list[0], list[1..]);
      NamesCons(a, list[1..]);
      assert list == [list[0]] + list[1..];
      [a] + list[1..]
    else
      NamesCons(list[0], list[1..]);
      NamesCons(list[0], Add(list[1..], a));
      assert list == [list[0]] + list[1..];
      [list[0]] + Add(list[1..], a)
  }

  function Names(list: seq<Action>): set<string> {
    set i | 0 <= i < |list| :: list[i].name
  }

  lemma NamesCons(a: Action, list: seq<Action>)
    ensures Names([a] + list) == {a.name} + Names(list)
  {
    var l := [a] + list;
    forall x | x in Names(l) ensures x in {a.name} + Names(list) {
      var i :| 0 <= i < |l| && l[i].name == x;
      if i > 0 { assert list[i - 1].name == x; }
    }
    forall x | x in Names(list) ensures x in Names(l) {
      var i :| 0 <= i < |list| && list[i].name == x;
      assert l[i + 1].name == x;
    }
    assert l[0].name == a.name;
  }

  /** The list each kind's `actions` builds: Bird and Knight can move, capture and be placed,
      Land and Citadel can be placed, and the other kinds have no actions. */
  function ActionsOf(k: Kind): seq<Action> {
    match k
    case Bird =>
      Add(Add(Add([], Action("move", "Move in a straight line")), Action("capture", "Capture a piece")),
        Action("place", "Place a Bird"))
    case Knight =>
      Add(Add(Add([], Action("move", "Move one square")), Action("capture", "Capture a piece")),
        Action("place", "Place a Knight"))
    case Land => Add([], Action("place", "Place a land tile"))
    case Citadel => Add([], Action("place", "Place a Citadel"))
    case _ => []
  }

  predicate Offers(k: Kind, name: string) { name in Names(ActionsOf(k)) }

  /** The lists the source builds, entry by entry and in order. */
  lemma ActionLists(k: Kind)
    ensures k == Bird ==> ActionsOf(k) == [
      Action("move", "Move in a straight line"), Action("capture", "Capture a piece"), Action("place", "Place a Bird")]
    ensures k == Knight ==> ActionsOf(k) == [
      Action("move", "Move one square"), Action("capture", "Capture a piece"), Action("place", "Place a Knight")]
    ensures k == Land ==> ActionsOf(k) == [Action("place", "Place a land tile")]
    ensures k == Citadel ==> ActionsOf(k) == [Action("place", "Place a Citadel")]
  {
    if k == Bird {
      ThreeAdded(Action("move", "Move in a straight line"), Action("capture", "Capture a piece"),
        Action("place", "Place a Bird"));
    } else if k == Knight {
      ThreeAdded(Action("move", "Move one square"), Action("capture", "Capture a piece"),
        Action("place", "Place a Knight"));
    }
  }

  /** Three entries with distinct names, added in turn to an empty list, stand in that order. */
  lemma ThreeAdded(a: Action, b: Action, c: Action)
    requires a.name != b.name && a.name != c.name && b.name != c.name
    ensures Add(Add(Add([], a), b), c) == [a, b, c]
  {
    var l1 := Add([], a);
    assert l1 == [a];
    var l2 := Add(l1, b);
    assert l2 == [a, b];
  }

  lemma NamesOfThree(a: Action, b: Action, c: Action)
    ensures Names([a, b, c]) == {a.name, b.name, c.name}
  {
    NamesCons(a, [b, c]);
    NamesCons(b, [c]);
    NamesCons(c, []);
    assert [a, b, c] == [a] + [b, c];
    assert [b, c] == [b] + [c];
    assert [c] == [c] + [];
  }

  /** The names each kind exposes, each once. */
  lemma ActionNames(k: Kind)
    ensures (k == Bird || k == Knight) ==> Names(ActionsOf(k)) == {"move", "capture", "place"}
    ensures (k == Land || k == Citadel) ==> Names(ActionsOf(k)) == {"place"}
    ensures !(k == Bird || k == Knight || k == Land || k == Citadel) ==> Names(ActionsOf(k)) == {}
    ensures forall i, j :: 0 <= i < j < |ActionsOf(k)| ==> ActionsOf(k)[i].name != ActionsOf(k)[j].name
  {
    ActionLists(k);
    var l := ActionsOf(k);
    if k == Bird || k == Knight {
      DistinctThree(l[0], l[1], l[2], "move", "capture", "place");
      assert l == [l[0], l[1], l[2]];
    } else if k == Land || k == Citadel {
      NamesCons(l[0], []);
      assert l == [l[0]] + [];
    }
  }

  /** Three entries named x, y and z, all different. */
  lemma DistinctThree(a: Action, b: Action, c: Action, x: string, y: string, z: string)
    requires a.name == x && b.name == y && c.name == z && x != y && x != z && y != z
    ensures Names([a, b, c]) == {x, y, z}
    ensures forall i, j :: 0 <= i < j < 3 ==> [a, b, c][i].name != [a, b, c][j].name
  {
    NamesOfThree(a, b, c);
  }

  /** Every name a kind offers is one of the three verbs. */
  lemma OfferedNamesAreVerbs(k: Kind, name: string)
    ensures Offers(k, name) ==> VerbNamed(name).Some?
    ensures Offers(k, name) <==> (VerbNamed(name).Some? && (k == Bird || k == Knight || VerbNamed(name).value == PlaceVerb)
      && (k == Bird || k == Knight || k == Land || k == Citadel))
  {
    ActionNames(k);
  }

  /** The same, for a name given as a verb: Birds and Knights offer all three verbs, Land and
      Citadels only placement, and nothing else offers any. */
  lemma VerbOffered(k: Kind, verb: Verb)
    ensures Offers(k, verb.Name()) <==> k == Bird || k == Knight || (verb == PlaceVerb && (k == Land || k == Citadel))
  {
    OfferedNamesAreVerbs(k, verb.Name());
    assert VerbNamed(verb.Name()) == Some(verb);
  }

  // ---------------------------------------------------------------------------------------
  // Land geometry

  /** Land.get_edge_elevation: 0 off the board or towards a cell without Land; towards Land,
      2 when none of that cell's eight neighbours is water, 1 otherwise. */
  function EdgeElevation(b: Board, land: Entity, direction: Coordinate): (r: nat)
    ensures r <= 2
    ensures r == 0 <==> !IsOnBoard(land) || !HasType(TileAt(b, land.location.at.Add(direction)).entities, OfKind(Land))
    ensures r == 2 <==> (IsOnBoard(land) && HasType(TileAt(b, land.location.at.Add(direction)).entities, OfKind(Land))
      && forall d :: d in Neighbours(land.location.at.Add(direction)) ==> !IsWater(TileAt(b, d).entities))
  {
    if !IsOnBoard(land) then 0
    else
      var next := land.location.at.Add(direction);
      if !HasType(TileAt(b, next).entities, OfKind(Land)) then 0
      else
        var water := WaterCount(b, Neighbours(next));
        if water == 0 then 2 else 1
  }

  /** `len([t for t in adjacent if t.is_water])`. */
  function WaterCount(b: Board, cells: seq<Coordinate>): (r: nat)
    ensures r == 0 <==> forall d :: d in cells ==> !IsWater(TileAt(b, d).entities)
    ensures r <= |cells|
  {
    if |cells| == 0 then 0
    else
      assert forall d :: d in cells <==> d == cells[0] || d in cells[1..];
      (if IsWater(TileAt(b, cells[0]).entities) then 1 else 0) + WaterCount(b, cells[1..])
  }

  /** The first test of Land.can_place: some eight-neighbour of the target holds Land, or the
      board has no Land at all. */
  predicate LandMayGoAt(b: Board, c: Coordinate) {
    (exists d :: d in Neighbours(c) && HasType(TileAt(b, d).entities, OfKind(Land)))
      || |BoardWhere(b, OfKind(Land), None, None, None)| == 0
  }
}
