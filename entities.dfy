/** Entities and entity lists (citadel/entity.py), and the closed catalogue of entity classes
    that citadel/piece.py defines.

    An entity is a record: its identity (the Python object), its concrete class, the players
    who created and who own it, and its `location` back-reference, which names the list the
    entity was last appended to. Entity lists are ordered sequences of such records; a list
    is named by the Location whose back-reference its entities carry. */
module Entities {
  import opened Util

  /** Players are numbered in seating order and named "Player i" (game.py:59-62). */
  type PlayerId = nat

  type EntityId = nat

  function PlayerName(p: PlayerId): string { "Player " + IntToString(p) }

  /** Player.__str__. */
  function PlayerText(p: PlayerId): string { "Player(" + PlayerName(p) + ")" }

  /** Distinct seats have distinct names, so comparing players by name is comparing them. */
  lemma PlayerNamesDiffer(p: PlayerId, q: PlayerId)
    ensures PlayerName(p) == PlayerName(q) ==> p == q
  {
    if PlayerName(p) == PlayerName(q) {
      assert PlayerName(p)[7..] == IntToString(p);
      assert PlayerName(q)[7..] == IntToString(q);
      IntToStringInjective(p, q);
    }
  }

  // ---------------------------------------------------------------------------------------
  // The entity classes

  /** The concrete subclasses of Entity; every one but Land and Citadel is a Piece. */
  datatype Kind = Bird | Knight | Turtle | Rabbit | Builder | Bomber | Necromancer | Assassin | Land | Citadel
  {
    predicate IsPiece() { !(Land? || Citadel?) }

    /** The class attribute `layer`: Turtle and Land are TERRAIN, everything else PIECE. */
    function LayerOf(): Layer { if Turtle? || Land? then Layer.Terrain else Layer.Piece }

    function ClassName(): string {
      match this
      case Bird => "Bird"
      case Knight => "Knight"
      case Turtle => "Turtle"
      case Rabbit => "Rabbit"
      case Builder => "Builder"
      case Bomber => "Bomber"
      case Necromancer => "Necromancer"
      case Assassin => "Assassin"
      case Land => "Land"
      case Citadel => "Citadel"
    }
  }

  /** piece.all_pieces, in declaration order. */
  const AllPieces: seq<Kind> := [Bird, Knight, Turtle, Rabbit, Builder, Bomber, Necromancer, Assassin]

  /** The class that `getattr(piece_module, name)` finds, when it is a concrete entity class. */
  function KindNamed(name: string): (r: Option<Kind>)
    ensures r.Some? ==> r.value.ClassName() == name
  {
    if name == "Bird" then Some(Bird)
    else if name == "Knight" then Some(Knight)
    else if name == "Turtle" then Some(Turtle)
    else if name == "Rabbit" then Some(Rabbit)
    else if name == "Builder" then Some(Builder)
    else if name == "Bomber" then Some(Bomber)
    else if name == "Necromancer" then Some(Necromancer)
    else if name == "Assassin" then Some(Assassin)
    else if name == "Land" then Some(Land)
    else if name == "Citadel" then Some(Citadel)
    else None
  }

  /** Every concrete class is found again under its own name. */
  lemma KindNamedInvertsClassName(k: Kind)
    ensures KindNamed(k.ClassName()) == Some(k)
  {
    match k
    case Bird =>
    case Knight =>
    case Turtle =>
    case Rabbit =>
    case Builder =>
    case Bomber =>
    case Necromancer =>
    case Assassin =>
    case Land =>
    case Citadel =>
  }

  /** A class given to isinstance: Entity itself, Piece, or a concrete class. */
  datatype EntityType = AnyEntity | AnyPiece | OfKind(kind: Kind)

  predicate IsInstance(k: Kind, t: EntityType) {
    match t
    case AnyEntity => true
    case AnyPiece => k.IsPiece()
    case OfKind(j) => k == j
  }

  /** str() of the class object. */
  function TypeText(t: EntityType): string {
    match t
    case AnyEntity => "<class " + "'citadel.entity.Entity'>"
    case AnyPiece => "<class " + "'citadel.piece.Piece'>"
    case OfKind(k) => "<class 'citadel.piece." + k.ClassName() + "'>"
  }

  // ---------------------------------------------------------------------------------------
  // Entities

  /** The lists an entity can belong to: a board tile, a personal stash, the community pool,
      the graveyard, or a list built by a query (identified by a tag). */
  datatype Location = OnTile(at: Coordinate) | PersonalStash(player: PlayerId) | CommunityPool | Graveyard | Unlisted(tag: nat)

  /** The `name` of each list (board.py:26 with the board named "main", player.py:23,
      game.py:48-50); lists built by queries are unnamed. */
  function LocationName(loc: Location): Option<string> {
    match loc
    case OnTile(c) => Some("main" + CoordinateText(c))
    case PersonalStash(p) => Some(PlayerName(p) + "'s Personal Stash")
    case CommunityPool => Some("Community Pool")
    case Graveyard => Some("Graveyard")
    case Unlisted(_) => None
  }

  datatype Entity = Entity(id: EntityId, kind: Kind, createdBy: Option<PlayerId>, owner: Option<PlayerId>, location: Location)
  {
    function LayerOf(): Layer { kind.LayerOf() }
  }

  /** Entity.coordinate: the tile's coordinate when the location is a tile, otherwise None. */
  function CoordinateOf(e: Entity): (r: Option<Coordinate>)
    ensures r.Some? <==> e.location.OnTile?
    ensures r.Some? ==> r.value == e.location.at
  {
    if e.location.OnTile? then Some(e.location.at) else None
  }

  /** Entity.board is the board exactly when the location is a tile. */
  predicate IsOnBoard(e: Entity) { e.location.OnTile? }

  /** Entity.__str__: the class name, the name of its list, and its owner's name. */
  function EntityText(e: Entity): string {
    var inList := if LocationName(e.location).Some? then "(" + LocationName(e.location).value + ")" else "";
    var owned := if e.owner.Some? then "(" + PlayerName(e.owner.value) + ")" else "";
    e.kind.ClassName() + inList + owned
  }

  function JoinTexts(items: seq<Entity>): string {
    if |items| == 0 then "" else if |items| == 1 then EntityText(items[0])
    else EntityText(items[0]) + ", " + JoinTexts(items[1..])
  }

  /** EntityList.__str__. */
  function ListText(name: Option<string>, items: seq<Entity>): string {
    "EntityList:" + (if name.Some? then name.value else "None") + "(" + JoinTexts(items) + ")"
  }

  predicate ContainsId(items: seq<Entity>, id: EntityId) {
    exists i :: 0 <= i < |items| && items[i].id == id
  }

  /** EntityList.append: add at the end; by default the entity's location becomes this list. */
  function Append(items: seq<Entity>, e: Entity, into: Location, resetLocation: bool): (r: seq<Entity>)
    ensures |r| == |items| + 1 && r[..|items|] == items
    ensures r[|items|] == e.(location := r[|items|].location)
    ensures r[|items|].location == if resetLocation then into else e.location
  {
    items + [if resetLocation then e.(location := into) else e]
  }

  /** Every entity with its location set to the given list. */
  function Relocate(items: seq<Entity>, into: Location): (r: seq<Entity>)
    ensures |r| == |items|
    ensures forall i :: 0 <= i < |items| ==> r[i] == items[i].(location := into)
  {
    seq(|items|, i requires 0 <= i < |items| => items[i].(location := into))
  }

  // ---------------------------------------------------------------------------------------
  // Queries

  /** EntityList.has_type: some element is an instance of the type. */
  function HasType(items: seq<Entity>, t: EntityType): (r: bool)
    ensures r <==> exists i :: 0 <= i < |items| && IsInstance(items[i].kind, t)
  {
    if |items| == 0 then false
    else if IsInstance(items[0].kind, t) then true
    else
      var rest := HasType(items[1..], t);
      assert forall i :: 1 <= i < |items| ==> items[i] == items[1..][i - 1];
      rest
  }

  /** The optional criteria of `where` and `where_not`; None means the argument was omitted. */
  datatype Filter = Filter(entityType: Option<EntityType>, createdBy: Option<PlayerId>, owner: Option<PlayerId>, layer: Option<Layer>)

  const NoFilter := Filter(None, None, None, None)

  function OfType(t: EntityType): Filter { Filter(Some(t), None, None, None) }

  /** The entity passes every supplied criterion of `where`. */
  predicate MatchesAll(e: Entity, f: Filter) {
    && (f.entityType.Some? ==> IsInstance(e.kind, f.entityType.value))
    && (f.createdBy.Some? ==> e.createdBy == f.createdBy)
    && (f.owner.Some? ==> e.owner == f.owner)
    && (f.layer.Some? ==> e.LayerOf() == f.layer.value)
  }

  /** The entity meets some supplied criterion of `where_not`. */
  predicate MatchesAny(e: Entity, f: Filter) {
    || (f.entityType.Some? && IsInstance(e.kind, f.entityType.value))
    || (f.createdBy.Some? && e.createdBy == f.createdBy)
    || (f.owner.Some? && e.owner == f.owner)
    || (f.layer.Some? && e.LayerOf() == f.layer.value)
  }

  /** A filter that supplies exactly one criterion. */
  predicate SingleCriterion(f: Filter) {
    (if f.entityType.Some? then 1 else 0) + (if f.createdBy.Some? then 1 else 0)
      + (if f.owner.Some? then 1 else 0) + (if f.layer.Some? then 1 else 0) == 1
  }

  /** What `where` returns: the elements passing every criterion, in list order. */
  function Selected(items: seq<Entity>, f: Filter): seq<Entity> {
    if |items| == 0 then []
    else
      var last := items[|items| - 1];
      Selected(items[..|items| - 1], f) + (if MatchesAll(last, f) then [last] else [])
  }

  /** What `where_not` keeps: the elements meeting none of the criteria, in list order. */
  function Kept(items: seq<Entity>, f: Filter): seq<Entity> {
    if |items| == 0 then []
    else
      var last := items[|items| - 1];
      Kept(items[..|items| - 1], f) + (if MatchesAny(last, f) then [] else [last])
  }

  /** EntityList.where: appends with reset_location=False, so the records are returned as
      they are, locations included. */
  method Where(items: seq<Entity>, f: Filter) returns (r: seq<Entity>)
    ensures r == Selected(items, f)
  {
    r := [];
    var i := 0;
    while i < |items|
      invariant 0 <= i <= |items|
      invariant r == Selected(items[..i], f)
    {
      assert items[..i + 1][..i] == items[..i];
      if MatchesAll(items[i], f) {
        r := r + [items[i]];
      }
      i := i + 1;
    }
    assert items[..|items|] == items;
  }

  /** EntityList.where_not: appends with the default flag, so every kept entity, which is the
      same object in the source list, now has the new list as its location. Returns the source
      list with those locations rewritten, and the result list. */
  method WhereNot(items: seq<Entity>, f: Filter, into: Location) returns (source: seq<Entity>, r: seq<Entity>)
    ensures |source| == |items|
    ensures forall i :: 0 <= i < |items| ==>
      source[i] == if MatchesAny(items[i], f) then items[i] else items[i].(location := into)
    ensures r == Relocate(Kept(items, f), into)
  {
    source := items;
    r := [];
    var i := 0;
    while i < |items|
      invariant 0 <= i <= |items|
      invariant |source| == |items|
      invariant forall j :: 0 <= j < i ==>
        source[j] == if MatchesAny(items[j], f) then items[j] else items[j].(location := into)
      invariant forall j :: i <= j < |items| ==> source[j] == items[j]
      invariant r == Relocate(Kept(items[..i], f), into)
    {
      assert items[..i + 1][..i] == items[..i];
      if !MatchesAny(items[i], f) {
        r := Append(r, items[i], into, true);
        source := source[i := items[i].(location := into)];
      }
      i := i + 1;
    }
    assert items[..|items|] == items;
  }

  lemma {:induction false} SelectedMembers(items: seq<Entity>, f: Filter)
    ensures forall e :: e in Selected(items, f) <==> e in items && MatchesAll(e, f)
    decreases |items|
  {
    if |items| > 0 {
      var init := items[..|items| - 1];
      SelectedMembers(init, f);
      assert items == init + [items[|items| - 1]];
    }
  }

  lemma {:induction false} SelectedConcat(a: seq<Entity>, b: seq<Entity>, f: Filter)
    ensures Selected(a + b, f) == Selected(a, f) + Selected(b, f)
    decreases |b|
  {
    if |b| == 0 {
      assert a + b == a;
    } else {
      var init := b[..|b| - 1];
      SelectedConcat(a, init, f);
      assert (a + b)[..|a + b| - 1] == a + init;
    }
  }

  lemma {:induction false} SelectedEverything(items: seq<Entity>, f: Filter)
    requires forall i :: 0 <= i < |items| ==> MatchesAll(items[i], f)
    ensures Selected(items, f) == items
    decreases |items|
  {
    if |items| > 0 {
      SelectedEverything(items[..|items| - 1], f);
      assert items == items[..|items| - 1] + [items[|items| - 1]];
    }
  }

  /** `where` keeps, in their original order, exactly the elements passing every supplied
      criterion; an omitted criterion restricts nothing, so `where()` is the whole list. */
  lemma WhereSemantics(items: seq<Entity>, f: Filter)
    ensures forall e :: e in Selected(items, f) <==> e in items && MatchesAll(e, f)
    ensures forall a, b :: a + b == items ==> Selected(items, f) == Selected(a, f) + Selected(b, f)
    ensures Selected(items, NoFilter) == items
    ensures Selected(Selected(items, f), f) == Selected(items, f)
  {
    SelectedMembers(items, f);
    forall a, b | a + b == items ensures Selected(items, f) == Selected(a, f) + Selected(b, f) {
      SelectedConcat(a, b, f);
    }
    SelectedEverything(items, NoFilter);
    var s := Selected(items, f);
    SelectedMembers(items, f);
    assert forall i :: 0 <= i < |s| ==> s[i] in s;
    SelectedEverything(s, f);
  }

  lemma {:induction false} KeptMembers(items: seq<Entity>, f: Filter)
    ensures forall e :: e in Kept(items, f) <==> e in items && !MatchesAny(e, f)
    decreases |items|
  {
    if |items| > 0 {
      var init := items[..|items| - 1];
      KeptMembers(init, f);
      assert items == init + [items[|items| - 1]];
    }
  }

  /** `where_not` keeps exactly the elements meeting none of the criteria; with a single
      criterion it keeps exactly what `where` drops. */
  lemma WhereNotSemantics(items: seq<Entity>, f: Filter)
    ensures forall e :: e in Kept(items, f) <==> e in items && !MatchesAny(e, f)
    ensures SingleCriterion(f) ==> forall e :: e in items ==> (e in Kept(items, f) <==> e !in Selected(items, f))
  {
    KeptMembers(items, f);
    SelectedMembers(items, f);
  }

  /** The equivalence used by get_equivalent_entity: same class, same coordinate, same
      owner. */
  predicate Equivalent(e: Entity, target: Entity) {
    e.kind == target.kind && CoordinateOf(e) == CoordinateOf(target) && e.owner.Some? && e.owner == target.owner
  }

  /** The test before the owners are compared: same class and same coordinate. */
  predicate SameSpot(e: Entity, target: Entity) {
    e.kind == target.kind && CoordinateOf(e) == CoordinateOf(target)
  }

  /** EntityList.get_equivalent_entity. Owners are compared by name, which raises
      AttributeError when the candidate or the target has no owner. */
  function EquivalentEntity(items: seq<Entity>, target: Entity): (r: Result<Option<Entity>>)
    ensures r.Ok? && r.value.Some? ==>
      exists i :: 0 <= i < |items| && items[i] == r.value.value && Equivalent(items[i], target)
        && forall j :: 0 <= j < i ==> !Equivalent(items[j], target)
    ensures r == Ok(None) <==> forall i :: 0 <= i < |items| && SameSpot(items[i], target) ==>
      items[i].owner.Some? && target.owner.Some? && items[i].owner != target.owner
    ensures r.Err? ==> (r.error.AttributeError? && (exists i :: 0 <= i < |items| && SameSpot(items[i], target))
      && (target.owner.None? || exists i :: 0 <= i < |items| && SameSpot(items[i], target) && items[i].owner.None?))
  {
    if |items| == 0 then Ok(None)
    else
      var e := items[0];
      if SameSpot(e, target) then
        if e.owner.None? || target.owner.None? then Err(AttributeError("'NoneType' object has " + "no attribute 'name'"))
        else if e.owner == target.owner then Ok(Some(e))
        else
          var rest := EquivalentEntity(items[1..], target);
          assert forall i :: 1 <= i < |items| ==> items[i] == items[1..][i - 1];
          rest
      else
        var rest := EquivalentEntity(items[1..], target);
        assert forall i :: 1 <= i < |items| ==> items[i] == items[1..][i - 1];
        rest
  }

  // ---------------------------------------------------------------------------------------
  // Copy and JSON

  /** Entity.to_json. */
  datatype EntityJson = EntityJson(typeName: string, createdBy: Option<string>, owner: Option<string>)

  /** EntityList.to_json. */
  datatype EntityListJson = EntityListJson(name: Option<string>, entities: seq<EntityJson>)

  function PlayerNameOf(p: Option<PlayerId>): Option<string> {
    if p.Some? then Some(PlayerName(p.value)) else None
  }

  function EntityToJson(e: Entity): EntityJson {
    EntityJson(e.kind.ClassName(), PlayerNameOf(e.createdBy), PlayerNameOf(e.owner))
  }

  function EntitiesToJson(items: seq<Entity>): (r: seq<EntityJson>)
    ensures |r| == |items|
    ensures forall i :: 0 <= i < |items| ==> r[i] == EntityToJson(items[i])
  {
    seq(|items|, i requires 0 <= i < |items| => EntityToJson(items[i]))
  }

  function ListToJson(loc: Location, items: seq<Entity>): EntityListJson {
    EntityListJson(LocationName(loc), EntitiesToJson(items))
  }

  /** `next((p for p in game.players if p.name == name), None)` over players 0 .. count-1. */
  function LookupPlayer(count: nat, name: Option<string>): (r: Option<PlayerId>)
    ensures r.Some? ==> r.value < count && name == Some(PlayerName(r.value))
    ensures r.None? ==> forall p: nat :: p < count ==> name != Some(PlayerName(p))
  {
    LookupFrom(0, count, name)
  }

  function LookupFrom(from: nat, count: nat, name: Option<string>): (r: Option<PlayerId>)
    ensures r.Some? ==> from <= r.value < count && name == Some(PlayerName(r.value))
    ensures r.None? ==> forall p: nat :: from <= p < count ==> name != Some(PlayerName(p))
    decreases count - from
  {
    if from >= count then None
    else if name == Some(PlayerName(from)) then Some(from)
    else LookupFrom(from + 1, count, name)
  }

  /** A player reference that JSON can carry through a game with this many players. */
  predicate SeatedIn(p: Option<PlayerId>, count: nat) { p.Some? ==> p.value < count }

  lemma LookupPlayerName(count: nat, p: Option<PlayerId>)
    requires SeatedIn(p, count)
    ensures LookupPlayer(count, PlayerNameOf(p)) == p
  {
    var r := LookupPlayer(count, PlayerNameOf(p));
    if p.Some? && r.Some? {
      PlayerNamesDiffer(p.value, r.value);
    }
  }

  /** Rebuild one entity from its JSON: look up its class, resolve both players by name. A
      name that is not a concrete entity class fails the reflective lookup. */
  function DecodeEntity(j: EntityJson, playerCount: nat, id: EntityId, into: Location): Result<Entity> {
    match KindNamed(j.typeName)
    case None => Err(AttributeError("module 'citadel.piece' " + "has no attribute '" + j.typeName + "'"))
    case Some(k) => Ok(Entity(id, k, LookupPlayer(playerCount, j.createdBy), LookupPlayer(playerCount, j.owner), into))
  }

  /** JSON of an entity whose players sit in the game decodes back to the entity, rebuilt in
      the new list. */
  lemma EntityJsonRoundTrip(e: Entity, playerCount: nat, into: Location)
    requires SeatedIn(e.createdBy, playerCount) && SeatedIn(e.owner, playerCount)
    ensures DecodeEntity(EntityToJson(e), playerCount, e.id, into) == Ok(e.(location := into))
  {
    KindNamedInvertsClassName(e.kind);
    LookupPlayerName(playerCount, e.createdBy);
    LookupPlayerName(playerCount, e.owner);
  }

  /** The players named in a chunk of JSON all sit in the game. */
  ghost predicate NamesSeated(j: EntityJson, playerCount: nat) {
    && (j.createdBy.Some? ==> exists p: nat :: p < playerCount && j.createdBy == Some(PlayerName(p)))
    && (j.owner.Some? ==> exists p: nat :: p < playerCount && j.owner == Some(PlayerName(p)))
  }

  /** Decoding then encoding gives the same JSON back when its class and its players exist. */
  lemma EntityJsonReencodes(j: EntityJson, playerCount: nat, id: EntityId, into: Location)
    requires KindNamed(j.typeName).Some? && NamesSeated(j, playerCount)
    ensures DecodeEntity(j, playerCount, id, into).Ok?
    ensures EntityToJson(DecodeEntity(j, playerCount, id, into).value) == j
  {
  }

  /** The list part of EntityList.from_json / Tile.from_json: one new entity per JSON entry,
      each located in the new list, numbered from nextId; the first unknown class fails. */
  method ListFromJson(entries: seq<EntityJson>, playerCount: nat, into: Location, nextId: EntityId)
    returns (r: Result<seq<Entity>>)
    ensures r.Err? <==> exists i :: 0 <= i < |entries| && KindNamed(entries[i].typeName).None?
    ensures r.Ok? ==> |r.value| == |entries| && forall i :: 0 <= i < |entries| ==>
      Ok(r.value[i]) == DecodeEntity(entries[i], playerCount, nextId + i, into)
    ensures r.Ok? && (forall i :: 0 <= i < |entries| ==> NamesSeated(entries[i], playerCount)) ==>
      EntitiesToJson(r.value) == entries
  {
    var built: seq<Entity> := [];
    var i := 0;
    while i < |entries|
      invariant 0 <= i <= |entries|
      invariant forall k :: 0 <= k < i ==> KindNamed(entries[k].typeName).Some?
      invariant |built| == i
      invariant forall k :: 0 <= k < i ==> Ok(built[k]) == DecodeEntity(entries[k], playerCount, nextId + k, into)
    {
      var d := DecodeEntity(entries[i], playerCount, nextId + i, into);
      if d.Err? {
        assert KindNamed(entries[i].typeName).None?;
        return Err(d.error);
      }
      built := built + [d.value];
      i := i + 1;
    }
    r := Ok(built);
    DecodedReencodes(entries, built, playerCount, into, nextId);
  }

  lemma DecodedReencodes(entries: seq<EntityJson>, built: seq<Entity>, playerCount: nat, into: Location, nextId: EntityId)
    requires |built| == |entries|
    requires forall k :: 0 <= k < |entries| ==> Ok(built[k]) == DecodeEntity(entries[k], playerCount, nextId + k, into)
    ensures (forall i :: 0 <= i < |entries| ==> NamesSeated(entries[i], playerCount)) ==> EntitiesToJson(built) == entries
  {
    if forall i :: 0 <= i < |entries| ==> NamesSeated(entries[i], playerCount) {
      forall k | 0 <= k < |entries| ensures EntitiesToJson(built)[k] == entries[k] {
        EntityJsonReencodes(entries[k], playerCount, nextId + k, into);
      }
    }
  }

  /** JSON of a list whose players sit in the game can always be decoded. */
  lemma ListJsonDecodable(items: seq<Entity>, playerCount: nat)
    requires forall i :: 0 <= i < |items| ==> SeatedIn(items[i].createdBy, playerCount) && SeatedIn(items[i].owner, playerCount)
    ensures forall i :: 0 <= i < |items| ==>
      KindNamed(EntitiesToJson(items)[i].typeName).Some? && NamesSeated(EntitiesToJson(items)[i], playerCount)
  {
    forall i | 0 <= i < |items|
      ensures KindNamed(EntitiesToJson(items)[i].typeName).Some? && NamesSeated(EntitiesToJson(items)[i], playerCount)
    {
      KindNamedInvertsClassName(items[i].kind);
      var e := items[i];
      if e.createdBy.Some? { assert e.createdBy.value < playerCount; }
      if e.owner.Some? { assert e.owner.value < playerCount; }
    }
  }

  /** EntityList.copy: each entity is rebuilt (a fresh object of the same class, creator and
      owner) and appended to the new list, which becomes its location. */
  method CopyList(items: seq<Entity>, into: Location, nextId: EntityId) returns (r: seq<Entity>)
    ensures |r| == |items|
    ensures forall i :: 0 <= i < |items| ==>
      r[i] == Entity(nextId + i, items[i].kind, items[i].createdBy, items[i].owner, into)
    ensures EntitiesToJson(r) == EntitiesToJson(items)
  {
    r := [];
    for i := 0 to |items|
      invariant |r| == i
      invariant forall k :: 0 <= k < i ==> r[k] == Entity(nextId + k, items[k].kind, items[k].createdBy, items[k].owner, into)
    {
      var made := Entity(nextId + i, items[i].kind, items[i].createdBy, items[i].owner, items[i].location);
      r := Append(r, made, into, true);
    }
  }
}
