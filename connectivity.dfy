/** Board.citadels_are_connected (citadel/board.py:416-440): a flood fill from the first
    citadel tile that moves orthogonally and expands only from tiles holding a TERRAIN-layer
    entity (Land or a Turtle). */
module Connectivity {
  import opened Util
  import opened Entities
  import opened Boards

  /** The tile at c holds a TERRAIN-layer entity: the walk expands from it. */
  predicate HasTerrain(b: Board, c: Coordinate) {
    GetByLayer(TileAt(b, c).entities, Layer.Terrain).Some?
  }

  lemma TerrainIsStored(b: Board, c: Coordinate)
    ensures HasTerrain(b, c) ==> c in b.tiles
  {
  }

  /** A finite set holding every coordinate the walk can be handed: the start, the stored
      tiles and their orthogonal neighbours. */
  function Universe(b: Board, s: Coordinate): (u: set<Coordinate>)
    ensures s in u
    ensures forall k, d :: k in b.tiles && d in OrthogonalNeighbours(k) ==> d in u
  {
    {s} + (set k, d | k in b.tiles && d in OrthogonalNeighbours(k) :: d)
  }

  /** The walk is given only coordinates of u, and u holds the neighbours of every tile it can
      expand from. */
  predicate Confined(b: Board, u: set<Coordinate>, work: seq<Coordinate>, visited: set<Coordinate>) {
    && (forall k, d :: k in b.tiles && d in OrthogonalNeighbours(k) ==> d in u)
    && (forall c :: c in work ==> c in u)
    && visited <= u
  }

  /** The recursive walk, with the pending calls as a stack: a checked tile is skipped, an
      unchecked one is marked, and a tile with terrain pushes its four orthogonal neighbours
      in the order get_adjacent_tiles lists them. The result is the set of checked tiles. */
  function Walk(b: Board, u: set<Coordinate>, work: seq<Coordinate>, visited: set<Coordinate>): (r: set<Coordinate>)
    requires Confined(b, u, work, visited)
    ensures visited <= r <= u
    ensures forall c :: c in work ==> c in r
    decreases |u - visited|, |work|
  {
    if |work| == 0 then visited
    else
      var c := work[0];
      if c in visited then Walk(b, u, work[1..], visited)
      else
        assert (u - (visited + {c})) + {c} == u - visited;
        if HasTerrain(b, c) then Walk(b, u, OrthogonalNeighbours(c) + work[1..], visited + {c})
        else Walk(b, u, work[1..], visited + {c})
  }

  /** The tiles the walk from s checks, when nothing stops it early. */
  function Region(b: Board, s: Coordinate): set<Coordinate> {
    Walk(b, Universe(b, s), [s], {})
  }

  // ---------------------------------------------------------------------------------------
  // What the walk computes: orthogonal reachability through terrain

  /** Consecutive cells of p are orthogonal neighbours, and every cell but the last has
      terrain. */
  /** One step of a path: from a cell with terrain to one of its four neighbours. */
  ghost predicate Link(b: Board, x: Coordinate, y: Coordinate) {
    HasTerrain(b, x) && y in OrthogonalNeighbours(x)
  }

  ghost predicate IsPath(b: Board, p: seq<Coordinate>) {
    forall i :: 0 <= i < |p| - 1 ==> Link(b, p[i], p[i + 1])
  }

  ghost predicate Reachable(b: Board, s: Coordinate, c: Coordinate) {
    exists p :: IsPath(b, p) && |p| > 0 && p[0] == s && p[|p| - 1] == c
  }

  lemma ReachableStep(b: Board, s: Coordinate, c: Coordinate, d: Coordinate)
    requires Reachable(b, s, c) && HasTerrain(b, c) && d in OrthogonalNeighbours(c)
    ensures Reachable(b, s, d)
  {
    var p :| IsPath(b, p) && |p| > 0 && p[0] == s && p[|p| - 1] == c;
    var q := p + [d];
    assert Link(b, c, d);
    forall i | 0 <= i < |q| - 1
      ensures Link(b, q[i], q[i + 1])
    {
      if i < |p| - 1 {
        assert q[i] == p[i] && q[i + 1] == p[i + 1];
      } else {
        assert q[i] == c && q[i + 1] == d;
      }
    }
    assert IsPath(b, q) && q[0] == s && q[|q| - 1] == d;
  }

  /** The checked set only grows. */
  lemma {:induction false} WalkContains(b: Board, u: set<Coordinate>, work: seq<Coordinate>, visited: set<Coordinate>)
    requires Confined(b, u, work, visited)
    ensures visited <= Walk(b, u, work, visited)
    ensures forall c :: c in work ==> c in Walk(b, u, work, visited)
    decreases |u - visited|, |work|
  {
    if |work| > 0 {
      var c := work[0];
      ConfinedStep(b, u, work, visited);
      assert forall x :: x in work ==> x == c || x in work[1..];
      if c in visited {
        WalkContains(b, u, work[1..], visited);
      } else {
        assert (u - (visited + {c})) + {c} == u - visited;
        if HasTerrain(b, c) {
          WalkContains(b, u, OrthogonalNeighbours(c) + work[1..], visited + {c});
        } else {
          WalkContains(b, u, work[1..], visited + {c});
        }
      }
    }
  }

  /** Everything the walk checks is reachable when everything it starts from is. */
  lemma {:induction false} WalkSound(b: Board, s: Coordinate, u: set<Coordinate>, work: seq<Coordinate>, visited: set<Coordinate>)
    requires Confined(b, u, work, visited)
    requires forall c :: c in work ==> Reachable(b, s, c)
    requires forall c :: c in visited ==> Reachable(b, s, c)
    ensures forall c :: c in Walk(b, u, work, visited) ==> Reachable(b, s, c)
    decreases |u - visited|, |work|
  {
    if |work| > 0 {
      var c := work[0];
      ConfinedStep(b, u, work, visited);
      assert forall x :: x in work[1..] ==> x in work;
      if c in visited {
        WalkSound(b, s, u, work[1..], visited);
      } else {
        assert (u - (visited + {c})) + {c} == u - visited;
        if HasTerrain(b, c) {
          forall d | d in OrthogonalNeighbours(c) ensures Reachable(b, s, d) {
            ReachableStep(b, s, c, d);
          }
          WalkSound(b, s, u, OrthogonalNeighbours(c) + work[1..], visited + {c});
        } else {
          WalkSound(b, s, u, work[1..], visited + {c});
        }
      }
    }
  }

  /** Every neighbour of a checked tile with terrain is checked or still pending. */
  ghost predicate ClosedUpTo(b: Board, work: seq<Coordinate>, visited: set<Coordinate>) {
    forall x, d :: x in visited && HasTerrain(b, x) && d in OrthogonalNeighbours(x) ==> d in visited || d in work
  }

  /** The walk's three moves keep it confined to u. */
  lemma ConfinedStep(b: Board, u: set<Coordinate>, work: seq<Coordinate>, visited: set<Coordinate>)
    requires Confined(b, u, work, visited) && |work| > 0
    ensures Confined(b, u, work[1..], visited)
    ensures work[0] !in visited ==> Confined(b, u, work[1..], visited + {work[0]})
    ensures work[0] !in visited && HasTerrain(b, work[0]) ==>
      Confined(b, u, OrthogonalNeighbours(work[0]) + work[1..], visited + {work[0]})
  {
    var c := work[0];
    assert c in u;
    assert forall x :: x in work[1..] ==> x in work;
    if HasTerrain(b, c) {
      assert c in b.tiles;
      assert forall x :: x in OrthogonalNeighbours(c) + work[1..] ==> x in OrthogonalNeighbours(c) || x in work[1..];
    }
  }

  /** Skipping a checked tile keeps the walk closed up to its stack. */
  lemma ClosedSkip(b: Board, work: seq<Coordinate>, visited: set<Coordinate>)
    requires ClosedUpTo(b, work, visited) && |work| > 0 && work[0] in visited
    ensures ClosedUpTo(b, work[1..], visited)
  {
    assert forall x :: x in work ==> x == work[0] || x in work[1..];
  }

  /** Marking an unchecked tile without terrain keeps the walk closed up to its stack. */
  lemma ClosedMarkBare(b: Board, work: seq<Coordinate>, visited: set<Coordinate>)
    requires ClosedUpTo(b, work, visited) && |work| > 0 && work[0] !in visited && !HasTerrain(b, work[0])
    ensures ClosedUpTo(b, work[1..], visited + {work[0]})
  {
    var c := work[0];
    forall x, d | x in visited + {c} && HasTerrain(b, x) && d in OrthogonalNeighbours(x)
      ensures d in visited + {c} || d in work[1..]
    {
      assert x in visited;
      if d in work && d != c {
        var i :| 0 <= i < |work| && work[i] == d;
        assert work[1..][i - 1] == d;
      }
    }
  }

  /** Marking an unchecked tile with terrain and pushing its neighbours keeps the walk closed
      up to its stack. */
  lemma ClosedMarkTerrain(b: Board, work: seq<Coordinate>, visited: set<Coordinate>)
    requires ClosedUpTo(b, work, visited) && |work| > 0 && work[0] !in visited && HasTerrain(b, work[0])
    ensures ClosedUpTo(b, OrthogonalNeighbours(work[0]) + work[1..], visited + {work[0]})
  {
    var c := work[0];
    var near := OrthogonalNeighbours(c);
    var work' := near + work[1..];
    forall x, d | x in visited + {c} && HasTerrain(b, x) && d in OrthogonalNeighbours(x)
      ensures d in visited + {c} || d in work'
    {
      if x == c {
        var i :| 0 <= i < |near| && near[i] == d;
        assert work'[i] == d;
      } else if d in work && d != c {
        var i :| 0 <= i < |work| && work[i] == d;
        assert work'[|near| + i - 1] == d;
      }
    }
  }

  /** Once the stack is empty, the checked set is closed under expansion. */
  lemma {:induction false} WalkClosed(b: Board, u: set<Coordinate>, work: seq<Coordinate>, visited: set<Coordinate>)
    requires Confined(b, u, work, visited) && ClosedUpTo(b, work, visited)
    ensures ClosedUpTo(b, [], Walk(b, u, work, visited))
    decreases |u - visited|, |work|
  {
    if |work| > 0 {
      var c := work[0];
      ConfinedStep(b, u, work, visited);
      if c in visited {
        ClosedSkip(b, work, visited);
        WalkClosed(b, u, work[1..], visited);
      } else {
        assert (u - (visited + {c})) + {c} == u - visited;
        if HasTerrain(b, c) {
          ClosedMarkTerrain(b, work, visited);
          WalkClosed(b, u, OrthogonalNeighbours(c) + work[1..], visited + {c});
        } else {
          ClosedMarkBare(b, work, visited);
          WalkClosed(b, u, work[1..], visited + {c});
        }
      }
    }
  }

  /** The region of s is exactly the set of cells reachable from s. */
  lemma RegionIsReachable(b: Board, s: Coordinate, c: Coordinate)
    ensures c in Region(b, s) <==> Reachable(b, s, c)
  {
    var u := Universe(b, s);
    assert Reachable(b, s, s) by {
      assert IsPath(b, [s]);
    }
    WalkSound(b, s, u, [s], {});
    if Reachable(b, s, c) {
      WalkContains(b, u, [s], {});
      WalkClosed(b, u, [s], {});
      var p :| IsPath(b, p) && |p| > 0 && p[0] == s && p[|p| - 1] == c;
      PathStaysInside(b, p, Region(b, s), |p| - 1);
    }
  }

  lemma {:induction false} PathStaysInside(b: Board, p: seq<Coordinate>, r: set<Coordinate>, i: nat)
    requires IsPath(b, p) && |p| > 0 && p[0] in r && ClosedUpTo(b, [], r) && i < |p|
    ensures p[i] in r
    decreases i
  {
    if i > 0 {
      PathStaysInside(b, p, r, i - 1);
      assert Link(b, p[i - 1], p[i]);
    }
  }

  // ---------------------------------------------------------------------------------------
  // Counting the citadels met

  /** The citadel the walk records at c: the first Citadel of a tile that has one. */
  function CitadelAt(b: Board, c: Coordinate): Option<Entity> {
    FirstOfKind(TileAt(b, c).entities, Citadel)
  }

  /** connected_citadels after checking the tiles of s. */
  function CitadelIds(b: Board, s: set<Coordinate>): set<EntityId> {
    set c | c in s && CitadelAt(b, c).Some? :: CitadelAt(b, c).value.id
  }

  function IdsOf(items: seq<Entity>): set<EntityId> {
    set e | e in items :: e.id
  }

  lemma {:induction false} IdsOfBound(items: seq<Entity>)
    ensures |IdsOf(items)| <= |items|
    decreases |items|
  {
    if |items| > 0 {
      var init := items[..|items| - 1];
      IdsOfBound(init);
      assert items == init + [items[|items| - 1]];
      assert IdsOf(items) == IdsOf(init) + {items[|items| - 1].id};
    }
  }

  /** The walk never records more citadels than the board has, wherever it goes. */
  lemma CitadelIdsBound(b: Board, s: set<Coordinate>)
    requires b.Valid()
    ensures CitadelIds(b, s) <= IdsOf(Citadels(b))
    ensures |CitadelIds(b, s)| <= |Citadels(b)|
  {
    forall c | c in s && CitadelAt(b, c).Some?
      ensures CitadelAt(b, c).value.id in IdsOf(Citadels(b))
    {
      RecordedCitadelIsListed(b, c);
    }
    IdsOfBound(Citadels(b));
    SubsetCardinality(CitadelIds(b, s), IdsOf(Citadels(b)));
  }

  lemma RecordedCitadelIsListed(b: Board, c: Coordinate)
    requires b.Valid() && CitadelAt(b, c).Some?
    ensures CitadelAt(b, c).value in Citadels(b)
  {
    BoardWhereMembers(b, OfKind(Citadel), None, None, None);
    var e := CitadelAt(b, c).value;
    assert e in TileAt(b, c).entities;
    assert c in b.keys;
  }

  lemma SubsetCardinality<T>(a: set<T>, b: set<T>)
    requires a <= b
    ensures |a| <= |b|
  {
    assert b == a + (b - a);
  }

  /** What checking c adds to connected_citadels. */
  lemma MeetStep(b: Board, visited: set<Coordinate>, c: Coordinate, connected: set<EntityId>)
    requires connected == CitadelIds(b, visited)
    ensures var citadel := CitadelAt(b, c);
      (if citadel.Some? then connected + {citadel.value.id} else connected) == CitadelIds(b, visited + {c})
  {
    CitadelIdsGrow(b, visited, c);
  }

  lemma CitadelIdsGrow(b: Board, s: set<Coordinate>, c: Coordinate)
    ensures CitadelIds(b, s + {c}) == CitadelIds(b, s) + (if CitadelAt(b, c).Some? then {CitadelAt(b, c).value.id} else {})
  {
  }

  /** Once the walk has met as many citadels as the board has, the rest of the walk meets no
      new one, so stopping early does not change the answer. */
  lemma AllMetEarly(b: Board, u: set<Coordinate>, work: seq<Coordinate>, visited: set<Coordinate>)
    requires b.Valid() && Confined(b, u, work, visited)
    requires |CitadelIds(b, visited)| == |Citadels(b)|
    ensures |CitadelIds(b, Walk(b, u, work, visited))| == |Citadels(b)|
  {
    var all := Walk(b, u, work, visited);
    WalkContains(b, u, work, visited);
    CitadelIdsBound(b, all);
    assert CitadelIds(b, visited) <= CitadelIds(b, all);
    SubsetCardinality(CitadelIds(b, visited), CitadelIds(b, all));
  }

  /** One step of the walk, as the loop of the method takes it. */
  lemma WalkStep(b: Board, u: set<Coordinate>, work: seq<Coordinate>, visited: set<Coordinate>)
    requires Confined(b, u, work, visited) && |work| > 0
    ensures var c := work[0];
      var visited' := visited + {c};
      var work' := if c in visited || !HasTerrain(b, c) then work[1..] else OrthogonalNeighbours(c) + work[1..];
      && Confined(b, u, work', visited')
      && Walk(b, u, work', visited') == Walk(b, u, work, visited)
      && (if c in visited then visited' == visited else |u - visited'| < |u - visited|)
  {
    var c := work[0];
    assert c in u;
    if c in visited {
      assert visited + {c} == visited;
    } else {
      assert (u - (visited + {c})) + {c} == u - visited;
      assert c !in u - (visited + {c});
      assert |u - visited| == |u - (visited + {c})| + 1;
    }
  }

  /** citadels_are_connected, as the walk from the tile of the first citadel decides it. */
  function CitadelsConnected(b: Board): (r: bool)
    ensures |Citadels(b)| <= 1 ==> r
  {
    var n := |Citadels(b)|;
    if n <= 1 then true
    else
      FindTilesFirst(b, b.keys, OfKind(Citadel), None, None);
      var start := FindTiles(b, OfKind(Citadel), None, None)[0].coordinate;
      |CitadelIds(b, Region(b, start))| == n
  }

  /** The flood fill of board.py, with the recursion as an explicit stack and the early exit
      once every citadel has been met. */
  method CitadelsAreConnected(b: Board) returns (r: bool)
    requires b.Valid()
    ensures r == CitadelsConnected(b)
  {
    var n := |Citadels(b)|;
    if n <= 1 {
      return true;
    }
    FindTilesFirst(b, b.keys, OfKind(Citadel), None, None);
    var start := FindTiles(b, OfKind(Citadel), None, None)[0].coordinate;
    ghost var u := Universe(b, start);
    var work := [start];
    var visited: set<Coordinate> := {};
    var connected: set<EntityId> := {};
    while |work| > 0
      invariant Confined(b, u, work, visited)
      invariant Walk(b, u, work, visited) == Region(b, start)
      invariant connected == CitadelIds(b, visited)
      decreases |u - visited|, |work|
    {
      var c := work[0];
      WalkStep(b, u, work, visited);
      if c in visited {
        work := work[1..];
      } else {
        MeetStep(b, visited, c, connected);
        visited := visited + {c};
        var citadel := CitadelAt(b, c);
        if citadel.Some? {
          connected := connected + {citadel.value.id};
        }
        if HasTerrain(b, c) {
          work := OrthogonalNeighbours(c) + work[1..];
        } else {
          work := work[1..];
        }
        if |connected| == n {
          AllMetEarly(b, u, work, visited);
          return true;
        }
      }
    }
    r := |connected| == n;
  }

  // ---------------------------------------------------------------------------------------
  // On a well-formed board: connected means every citadel tile is reachable

  /** No entity id appears twice on the board. */
  ghost predicate DistinctIds(b: Board) {
    forall k, k', i, j ::
      (k in b.tiles && k' in b.tiles && 0 <= i < |b.tiles[k]| && 0 <= j < |b.tiles[k']| && (k != k' || i != j))
      ==> b.tiles[k][i].id != b.tiles[k'][j].id
  }

  /** A board as the game keeps it: consistent keys, layered tiles, distinct entities. */
  ghost predicate WellFormed(b: Board) {
    b.Valid() && (forall k :: k in b.tiles ==> Layered(b.tiles[k])) && DistinctIds(b)
  }

  /** The cells of s whose tile holds a citadel. */
  function CitadelCells(b: Board, s: set<Coordinate>): set<Coordinate> {
    set k | k in s && CitadelAt(b, k).Some?
  }

  function CitadelTiles(b: Board): set<Coordinate> {
    CitadelCells(b, b.tiles.Keys)
  }

  /** A tile with distinct layers holds at most one citadel, so `where(Citadel)` finds one
      exactly when the tile has a citadel. */
  lemma {:induction false} OneCitadelPerTile(items: seq<Entity>)
    requires DistinctLayers(items)
    ensures |Selected(items, OfType(OfKind(Citadel)))| == if FirstOfKind(items, Citadel).Some? then 1 else 0
    decreases |items|
  {
    var f := OfType(OfKind(Citadel));
    if |items| > 0 {
      var init := items[..|items| - 1];
      var last := items[|items| - 1];
      assert forall i :: 0 <= i < |init| ==> init[i] == items[i];
      OneCitadelPerTile(init);
      SelectedMembers(init, f);
      if last.kind == Citadel {
        forall i | 0 <= i < |init| ensures init[i].kind != Citadel {
          assert items[i].LayerOf() != items[|items| - 1].LayerOf();
        }
        assert Selected(init, f) == [];
      } else {
        assert (forall i :: 0 <= i < |items| ==> items[i].kind != Citadel) <==>
          (forall i :: 0 <= i < |init| ==> init[i].kind != Citadel);
      }
    }
  }

  lemma CitadelCellsSplit(b: Board, keys: seq<Coordinate>)
    requires |keys| > 0
    ensures CitadelCells(b, set k | k in keys) ==
      (if CitadelAt(b, keys[0]).Some? then {keys[0]} else {}) + CitadelCells(b, set k | k in keys[1..])
  {
    assert (set k | k in keys) == {keys[0]} + (set k | k in keys[1..]);
  }

  /** Each stored tile with a citadel contributes exactly one entry to `citadels`. */
  lemma {:induction false} CitadelCountOver(b: Board, keys: seq<Coordinate>)
    requires forall k :: k in b.tiles ==> DistinctLayers(b.tiles[k])
    requires forall i, j :: 0 <= i < j < |keys| ==> keys[i] != keys[j]
    ensures |WhereOver(b, keys, OfType(OfKind(Citadel)))| == |CitadelCells(b, set k | k in keys)|
    decreases |keys|
  {
    if |keys| > 0 {
      CitadelCountOver(b, keys[1..]);
      CitadelCountStep(b, keys);
    }
  }

  /** The first key adds as many selected citadels as citadel cells. */
  lemma CitadelCountStep(b: Board, keys: seq<Coordinate>)
    requires forall k :: k in b.tiles ==> DistinctLayers(b.tiles[k])
    requires forall i, j :: 0 <= i < j < |keys| ==> keys[i] != keys[j]
    requires |keys| > 0
    ensures |WhereOver(b, keys, OfType(OfKind(Citadel)))| - |CitadelCells(b, set k | k in keys)|
      == |WhereOver(b, keys[1..], OfType(OfKind(Citadel)))| - |CitadelCells(b, set k | k in keys[1..])|
  {
    WhereOverHead(b, keys);
    CitadelCellsHead(b, keys);
  }

  lemma WhereOverHead(b: Board, keys: seq<Coordinate>)
    requires forall k :: k in b.tiles ==> DistinctLayers(b.tiles[k])
    requires |keys| > 0
    ensures |WhereOver(b, keys, OfType(OfKind(Citadel)))|
      == (if CitadelAt(b, keys[0]).Some? then 1 else 0) + |WhereOver(b, keys[1..], OfType(OfKind(Citadel)))|
  {
    if keys[0] in b.tiles {
      OneCitadelPerTile(b.tiles[keys[0]]);
    }
  }

  lemma CitadelCellsHead(b: Board, keys: seq<Coordinate>)
    requires forall i, j :: 0 <= i < j < |keys| ==> keys[i] != keys[j]
    requires |keys| > 0
    ensures |CitadelCells(b, set k | k in keys)|
      == (if CitadelAt(b, keys[0]).Some? then 1 else 0) + |CitadelCells(b, set k | k in keys[1..])|
  {
    CitadelCellsSplit(b, keys);
    assert keys[0] !in CitadelCells(b, set k | k in keys[1..]);
  }

  lemma CitadelCount(b: Board)
    requires WellFormed(b)
    ensures |Citadels(b)| == |CitadelTiles(b)|
  {
    CitadelCountOver(b, b.keys);
    assert (set k | k in b.keys) == b.tiles.Keys;
  }

  lemma CitadelIdsSplit(b: Board, s: set<Coordinate>, c: Coordinate)
    requires c in s
    ensures CitadelIds(b, s) == CitadelIds(b, s - {c}) + (if CitadelAt(b, c).Some? then {CitadelAt(b, c).value.id} else {})
    ensures s * CitadelTiles(b) == (s - {c}) * CitadelTiles(b) + (if CitadelAt(b, c).Some? && c in b.tiles then {c} else {})
  {
    assert s == (s - {c}) + {c};
  }

  /** The citadel recorded at a cell outside s is none of those recorded in s. */
  lemma CitadelIsNew(b: Board, s: set<Coordinate>, c: Coordinate)
    requires DistinctIds(b) && c !in s && CitadelAt(b, c).Some?
    ensures CitadelAt(b, c).value.id !in CitadelIds(b, s)
  {
    var e := CitadelAt(b, c).value;
    var i :| 0 <= i < |b.tiles[c]| && b.tiles[c][i] == e;
  }

  /** Taking one cell out of s changes both counts alike. */
  lemma CitadelIdsStep(b: Board, s: set<Coordinate>, c: Coordinate)
    requires DistinctIds(b) && c in s
    ensures |CitadelIds(b, s)| - |s * CitadelTiles(b)| == |CitadelIds(b, s - {c})| - |(s - {c}) * CitadelTiles(b)|
  {
    CitadelIdsSplit(b, s, c);
    var t := (s - {c}) * CitadelTiles(b);
    assert c !in t;
    if CitadelAt(b, c).Some? {
      CitadelIsNew(b, s - {c}, c);
      assert c in b.tiles;
      assert |t + {c}| == |t| + 1;
    }
  }

  /** Distinct citadel tiles record distinct citadels. */
  lemma {:induction false} CitadelIdsCount(b: Board, s: set<Coordinate>)
    requires DistinctIds(b)
    ensures |CitadelIds(b, s)| == |s * CitadelTiles(b)|
    decreases |s|
  {
    if s != {} {
      var c :| c in s;
      CitadelIdsCount(b, s - {c});
      CitadelIdsStep(b, s, c);
    } else {
      assert CitadelIds(b, s) == {};
    }
  }

  /** The tile find_tiles(Citadel) lists first, where the walk starts. */
  function StartTile(b: Board): Coordinate
    requires |Citadels(b)| > 0
  {
    FindTilesFirst(b, b.keys, OfKind(Citadel), None, None);
    FindTiles(b, OfKind(Citadel), None, None)[0].coordinate
  }

  lemma FullSubset(r: set<Coordinate>, t: set<Coordinate>)
    ensures |r * t| == |t| <==> t <= r
  {
    if t <= r {
      assert r * t == t;
    } else {
      var k :| k in t && k !in r;
      SubsetCardinality(r * t, t - {k});
    }
  }

  /** On a board with two or more citadels, citadels_are_connected holds exactly when every
      tile holding a citadel is orthogonally reachable from the first one through terrain. */
  lemma ConnectedIffAllReachable(b: Board)
    requires WellFormed(b) && |Citadels(b)| >= 2
    ensures CitadelsConnected(b) <==> forall k :: k in CitadelTiles(b) ==> Reachable(b, StartTile(b), k)
  {
    var start := StartTile(b);
    var region := Region(b, start);
    assert CitadelsConnected(b) <==> |CitadelIds(b, region)| == |Citadels(b)|;
    CitadelCount(b);
    CitadelIdsCount(b, region);
    FullSubset(region, CitadelTiles(b));
    forall k | k in CitadelTiles(b) ensures k in region <==> Reachable(b, start, k) {
      RegionIsReachable(b, start, k);
    }
  }
}
