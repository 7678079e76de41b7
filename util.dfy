/** Value types of the rules engine (citadel/util.py): the success-or-reason result, the two
    occupancy layers, the game phases, board coordinates with their neighbourhoods and their
    "x,y" text form, and bounding rectangles. Also the Option/Result wrappers and the
    exceptions the engine raises, which the rest of the model uses instead of Python's
    raise statements. */
module Util {

  datatype Option<T> = None | Some(value: T)

  /** The exceptions that escape the engine: its own ActionError family (util.py:34-38) and
      the built-in ones its code raises or lets through. */
  datatype Error =
    | ValueError(message: string)
    | ActionError(message: string)
    | PlacementError(message: string)
    | IndexError(message: string)
    | KeyError(message: string)
    | TypeError(message: string)
    | AttributeError(message: string)
    | ZeroDivisionError(message: string)
  {
    /** `except ActionError` also catches PlacementError, its subclass. */
    predicate IsActionError() { ActionError? || PlacementError? }
  }

  datatype Result<T> = Ok(value: T) | Err(error: Error)

  /** The state an operation leaves behind, and the exception it raised, if any: for the
      operations that can raise after they have already changed something. */
  datatype Outcome<T> = Outcome(state: T, raised: Option<Error>)

  /** BoolWithReason: truthy with no reason, or falsy carrying the reason string it was
      built from. */
  datatype BoolWithReason = Pass | Fail(why: string) {
    predicate Holds() { Pass? }
    function Reason(): Option<string> { if Pass? then None else Some(why) }
  }

  /** The layer of an entity; TERRAIN = 0 < PIECE = 1. */
  datatype Layer = Terrain | Piece {
    function Value(): nat { if Terrain? then 0 else 1 }
    function Name(): string { if Terrain? then "TERRAIN" else "PIECE" }
    /** Layer(value - 1) for a layer whose value is positive. */
    function Below(): (r: Option<Layer>)
      ensures r.Some? <==> Value() > 0
      ensures r.Some? ==> r.value.Value() == Value() - 1
    {
      if Piece? then Some(Terrain) else None
    }
  }

  datatype GamePhase = LandPlacement | CitadelPlacement | PieceSelection | Battle | End

  function Abs(n: int): nat { if n < 0 then -n else n }

  // ---------------------------------------------------------------------------------------
  // Coordinates

  datatype Coordinate = Coordinate(x: int, y: int) {

    /** Componentwise sum; subtracting the same offset undoes it. */
    function Add(other: Coordinate): (r: Coordinate)
      ensures r.Sub(other) == this
    {
      Coordinate(x + other.x, y + other.y)
    }

    /** Componentwise difference. */
    function Sub(other: Coordinate): Coordinate
    {
      Coordinate(x - other.x, y - other.y)
    }
  }

  /** d is one step from c along exactly one axis. */
  predicate IsOrthogonalStep(c: Coordinate, d: Coordinate) {
    Abs(d.x - c.x) + Abs(d.y - c.y) == 1
  }

  /** d is one step from c along both axes. */
  predicate IsDiagonalStep(c: Coordinate, d: Coordinate) {
    Abs(d.x - c.x) == 1 && Abs(d.y - c.y) == 1
  }

  /** Coordinate.get_adjacent_coordinates: the four orthogonal neighbours (left, right, down,
      up) and/or the four diagonal ones; asking for neither raises ValueError. */
  function AdjacentCoordinates(c: Coordinate, orthogonal: bool, diagonal: bool): (r: Result<seq<Coordinate>>)
    ensures r.Err? <==> !orthogonal && !diagonal
    ensures r.Err? ==> r.error.ValueError?
    ensures r.Ok? ==> |r.value| == (if orthogonal then 4 else 0) + (if diagonal then 4 else 0)
    ensures r.Ok? ==> forall d :: d in r.value <==>
      (orthogonal && IsOrthogonalStep(c, d)) || (diagonal && IsDiagonalStep(c, d))
    ensures r.Ok? ==> forall i, j :: 0 <= i < j < |r.value| ==> r.value[i] != r.value[j]
    ensures r.Ok? ==> c !in r.value
  {
    if !orthogonal && !diagonal then
      Err(ValueError("At least one of " + "orthagonal or diagonal " + "must be True."))
    else
      var straight := if orthogonal then
        [Coordinate(c.x - 1, c.y), Coordinate(c.x + 1, c.y), Coordinate(c.x, c.y - 1), Coordinate(c.x, c.y + 1)]
      else [];
      var slanted := if diagonal then
        [Coordinate(c.x - 1, c.y - 1), Coordinate(c.x - 1, c.y + 1), Coordinate(c.x + 1, c.y - 1), Coordinate(c.x + 1, c.y + 1)]
      else [];
      Ok(straight + slanted)
  }

  /** The default call get_adjacent_coordinates(): all eight neighbours. */
  function Neighbours(c: Coordinate): seq<Coordinate> {
    AdjacentCoordinates(c, true, true).value
  }

  /** get_adjacent_coordinates(diagonal=False): the four orthogonal neighbours. */
  function OrthogonalNeighbours(c: Coordinate): seq<Coordinate> {
    AdjacentCoordinates(c, true, false).value
  }

  /** The eight-neighbourhood is the set of other cells at Chebyshev distance 1. */
  lemma NeighboursAreKingSteps(c: Coordinate, d: Coordinate)
    ensures d in Neighbours(c) <==> d != c && Abs(d.x - c.x) <= 1 && Abs(d.y - c.y) <= 1
  {
    var r := AdjacentCoordinates(c, true, true);
    assert d in r.value <==> IsOrthogonalStep(c, d) || IsDiagonalStep(c, d);
  }

  /** Adjacency is symmetric in both neighbourhoods. */
  lemma NeighbourhoodsAreSymmetric(c: Coordinate, d: Coordinate)
    ensures d in Neighbours(c) <==> c in Neighbours(d)
    ensures d in OrthogonalNeighbours(c) <==> c in OrthogonalNeighbours(d)
  {
    var r1 := AdjacentCoordinates(c, true, true);
    var r2 := AdjacentCoordinates(d, true, true);
    var o1 := AdjacentCoordinates(c, true, false);
    var o2 := AdjacentCoordinates(d, true, false);
    assert d in r1.value <==> IsOrthogonalStep(c, d) || IsDiagonalStep(c, d);
    assert c in r2.value <==> IsOrthogonalStep(d, c) || IsDiagonalStep(d, c);
    assert d in o1.value <==> IsOrthogonalStep(c, d);
    assert c in o2.value <==> IsOrthogonalStep(d, c);
  }

  // ---------------------------------------------------------------------------------------
  // Decimal text of integers: f"{n}" and int(s)

  predicate IsDigit(ch: char) { '0' <= ch <= '9' }

  predicate AllDigits(s: string) { forall i :: 0 <= i < |s| ==> IsDigit(s[i]) }

  function DigitChar(d: nat): (ch: char)
    requires d < 10
    ensures IsDigit(ch) && ch as int - '0' as int == d
  {
    ('0' as int + d) as char
  }

  /** Decimal digits of a natural number, most significant first. */
  function NatToString(n: nat): (s: string)
    ensures |s| > 0 && AllDigits(s)
    decreases n
  {
    if n < 10 then [DigitChar(n)] else NatToString(n / 10) + [DigitChar(n % 10)]
  }

  /** str(i) for a Python int: a minus sign for negatives, then the digits. */
  function IntToString(i: int): string {
    if i < 0 then "-" + NatToString(-i) else NatToString(i)
  }

  /** The value of a string of decimal digits. */
  function DigitsValue(s: string): nat
    requires AllDigits(s)
  {
    if |s| == 0 then 0 else DigitsValue(s[..|s| - 1]) * 10 + (s[|s| - 1] as int - '0' as int)
  }

  /** int(s): an optional sign followed by at least one decimal digit; anything else is
      rejected (Python raises ValueError). */
  function ParseInt(s: string): Option<int> {
    if |s| > 0 && (s[0] == '-' || s[0] == '+') then
      if |s| > 1 && AllDigits(s[1..]) then
        Some(if s[0] == '-' then -(DigitsValue(s[1..]) as int) else DigitsValue(s[1..]))
      else None
    else if |s| > 0 && AllDigits(s) then Some(DigitsValue(s))
    else None
  }

  lemma {:induction false} NatToStringValue(n: nat)
    ensures DigitsValue(NatToString(n)) == n
    decreases n
  {
    var s := NatToString(n);
    if n >= 10 {
      NatToStringValue(n / 10);
      assert s[..|s| - 1] == NatToString(n / 10);
    }
  }

  /** Reading back the decimal text of any integer, negative ones included, gives it back. */
  lemma IntToStringParses(i: int)
    ensures ParseInt(IntToString(i)) == Some(i)
  {
    var s := IntToString(i);
    if i < 0 {
      var t := NatToString(-i);
      NatToStringValue(-i);
      assert s == "-" + t;
      assert s[0] == '-' && s[1..] == t;
      assert ParseInt(s) == Some(-(DigitsValue(t) as int));
    } else {
      var t := NatToString(i);
      NatToStringValue(i);
      assert s == t;
      assert IsDigit(s[0]);
      assert ParseInt(s) == Some(DigitsValue(t));
    }
  }

  lemma IntToStringInjective(i: int, j: int)
    ensures IntToString(i) == IntToString(j) ==> i == j
  {
    IntToStringParses(i);
    IntToStringParses(j);
  }

  /** str.split(sep) with a single-character separator: always at least one part. */
  function Split(s: string, sep: char): (parts: seq<string>)
    ensures |parts| >= 1
    decreases |s|
  {
    if |s| == 0 then [""]
    else
      var rest := Split(s[1..], sep);
      if s[0] == sep then [""] + rest else [[s[0]] + rest[0]] + rest[1..]
  }

  lemma {:induction false} SplitWithoutSeparator(s: string, sep: char)
    requires sep !in s
    ensures Split(s, sep) == [s]
    decreases |s|
  {
    if |s| > 0 {
      SplitWithoutSeparator(s[1..], sep);
      assert [s[0]] + s[1..] == s;
    }
  }

  lemma {:induction false} SplitAtSeparator(a: string, b: string, sep: char)
    requires sep !in a
    ensures Split(a + [sep] + b, sep) == [a] + Split(b, sep)
    decreases |a|
  {
    var s := a + [sep] + b;
    if |a| == 0 {
      assert s[1..] == b;
    } else {
      assert s[1..] == a[1..] + [sep] + b;
      SplitAtSeparator(a[1..], b, sep);
      assert [a[0]] + a[1..] == a;
    }
  }

  /** Coordinate.to_json: "x,y". */
  function CoordinateToJson(c: Coordinate): string {
    IntToString(c.x) + "," + IntToString(c.y)
  }

  /** Coordinate.from_json: split at commas, expect exactly two parts, read each with int(). */
  function CoordinateFromJson(text: string): Result<Coordinate> {
    var parts := Split(text, ',');
    if |parts| > 2 then Err(ValueError("too many values to " + "unpack (expected 2)"))
    else if |parts| < 2 then Err(ValueError("not enough values to " + "unpack " + "(expected 2, got 1)"))
    else match (ParseInt(parts[0]), ParseInt(parts[1]))
      case (Some(x), Some(y)) => Ok(Coordinate(x, y))
      case (None, _) => Err(ValueError("invalid literal for " + "int() with base 10: '" + parts[0] + "'"))
      case (_, None) => Err(ValueError("invalid literal for " + "int() with base 10: '" + parts[1] + "'"))
  }

  lemma IntToStringHasNoComma(i: int)
    ensures ',' !in IntToString(i)
  {
    var s := IntToString(i);
    if ',' in s {
      var k :| 0 <= k < |s| && s[k] == ',';
      if i < 0 {
        assert s[k] == '-' || IsDigit(s[k]) by {
          if k > 0 { assert s[k] == NatToString(-i)[k - 1]; }
        }
      }
    }
  }

  /** The "x,y" form reads back as the same coordinate, for negative components too. */
  lemma CoordinateJsonRoundTrip(c: Coordinate)
    ensures CoordinateFromJson(CoordinateToJson(c)) == Ok(c)
  {
    var a, b := IntToString(c.x), IntToString(c.y);
    IntToStringHasNoComma(c.x);
    IntToStringHasNoComma(c.y);
    assert CoordinateToJson(c) == a + [','] + b;
    SplitAtSeparator(a, b, ',');
    SplitWithoutSeparator(b, ',');
    IntToStringParses(c.x);
    IntToStringParses(c.y);
  }

  /** Coordinate.__str__: "(x, y)". */
  function CoordinateText(c: Coordinate): string {
    "(" + IntToString(c.x) + ", " + IntToString(c.y) + ")"
  }

  // ---------------------------------------------------------------------------------------
  // Rectangles

  function Max0(n: int): nat { if n < 0 then 0 else n }

  /** Strict x-major order on coordinates: by x, then by y. */
  predicate XMajorBefore(a: Coordinate, b: Coordinate) {
    a.x < b.x || (a.x == b.x && a.y < b.y)
  }

  datatype Rectangle = Rectangle(xMin: int, xMax: int, yMin: int, yMax: int) {

    function Width(): int { xMax - xMin + 1 }

    function Height(): int { yMax - yMin + 1 }

    /** Rectangle.add_margin: every bound moves outward by the margin. */
    function AddMargin(margin: int): (r: Rectangle)
      ensures r.Width() == Width() + 2 * margin && r.Height() == Height() + 2 * margin
      ensures margin >= 0 ==> forall c :: Contains(c) ==> r.Contains(c)
    {
      Rectangle(xMin - margin, xMax + margin, yMin - margin, yMax + margin)
    }

    predicate Contains(c: Coordinate) {
      xMin <= c.x <= xMax && yMin <= c.y <= yMax
    }

    /** Rectangle.__iter__: for x in range(x_min, x_max + 1), for y in range(y_min, y_max + 1). */
    function Cells(): seq<Coordinate> {
      Columns(xMin, xMax, yMin, yMax)
    }
  }

  /** The cells (x, lo), (x, lo + 1), ..., (x, hi). */
  function Column(x: int, lo: int, hi: int): seq<Coordinate>
    decreases hi - lo
  {
    if lo > hi then [] else [Coordinate(x, lo)] + Column(x, lo + 1, hi)
  }

  /** The columns x = lo .. hi, each from y = yLo to y = yHi. */
  function Columns(lo: int, hi: int, yLo: int, yHi: int): seq<Coordinate>
    decreases hi - lo
  {
    if lo > hi then [] else Column(lo, yLo, yHi) + Columns(lo + 1, hi, yLo, yHi)
  }

  lemma {:induction false} ColumnFacts(x: int, lo: int, hi: int)
    ensures |Column(x, lo, hi)| == Max0(hi - lo + 1)
    ensures forall c :: c in Column(x, lo, hi) <==> c.x == x && lo <= c.y <= hi
    ensures forall i, j :: 0 <= i < j < |Column(x, lo, hi)| ==> XMajorBefore(Column(x, lo, hi)[i], Column(x, lo, hi)[j])
    decreases hi - lo
  {
    if lo <= hi {
      ColumnFacts(x, lo + 1, hi);
      var col := Column(x, lo, hi);
      assert col == [Coordinate(x, lo)] + Column(x, lo + 1, hi);
      forall i, j | 0 <= i < j < |col| ensures XMajorBefore(col[i], col[j]) {
        if i > 0 {
          assert col[i] == Column(x, lo + 1, hi)[i - 1];
        }
        assert col[j] == Column(x, lo + 1, hi)[j - 1];
        assert col[j] in Column(x, lo + 1, hi);
      }
    }
  }

  lemma ColumnsFacts(lo: int, hi: int, yLo: int, yHi: int)
    ensures |Columns(lo, hi, yLo, yHi)| == Max0(hi - lo + 1) * Max0(yHi - yLo + 1)
    ensures forall c :: c in Columns(lo, hi, yLo, yHi) <==> lo <= c.x <= hi && yLo <= c.y <= yHi
    ensures forall i, j :: 0 <= i < j < |Columns(lo, hi, yLo, yHi)| ==>
      XMajorBefore(Columns(lo, hi, yLo, yHi)[i], Columns(lo, hi, yLo, yHi)[j])
  {
    ColumnsLength(lo, hi, yLo, yHi);
    ColumnsMembers(lo, hi, yLo, yHi);
    ColumnsOrdered(lo, hi, yLo, yHi);
  }

  lemma {:induction false} ColumnsLength(lo: int, hi: int, yLo: int, yHi: int)
    ensures |Columns(lo, hi, yLo, yHi)| == Max0(hi - lo + 1) * Max0(yHi - yLo + 1)
    decreases hi - lo
  {
    if lo <= hi {
      ColumnFacts(lo, yLo, yHi);
      ColumnsLength(lo + 1, hi, yLo, yHi);
      var h, w := Max0(yHi - yLo + 1), Max0(hi - (lo + 1) + 1);
      assert Columns(lo, hi, yLo, yHi) == Column(lo, yLo, yHi) + Columns(lo + 1, hi, yLo, yHi);
      assert Max0(hi - lo + 1) == w + 1;
      MulStep(w, h);
    }
  }

  lemma MulStep(a: nat, h: nat)
    ensures (a + 1) * h == h + a * h
  {
  }

  lemma {:induction false} ColumnsMembers(lo: int, hi: int, yLo: int, yHi: int)
    ensures forall c :: c in Columns(lo, hi, yLo, yHi) <==> lo <= c.x <= hi && yLo <= c.y <= yHi
    decreases hi - lo
  {
    if lo <= hi {
      ColumnFacts(lo, yLo, yHi);
      ColumnsMembers(lo + 1, hi, yLo, yHi);
      assert Columns(lo, hi, yLo, yHi) == Column(lo, yLo, yHi) + Columns(lo + 1, hi, yLo, yHi);
    }
  }

  lemma {:induction false} ColumnsOrdered(lo: int, hi: int, yLo: int, yHi: int)
    ensures forall i, j :: 0 <= i < j < |Columns(lo, hi, yLo, yHi)| ==>
      XMajorBefore(Columns(lo, hi, yLo, yHi)[i], Columns(lo, hi, yLo, yHi)[j])
    decreases hi - lo
  {
    if lo <= hi {
      ColumnFacts(lo, yLo, yHi);
      ColumnsMembers(lo + 1, hi, yLo, yHi);
      ColumnsOrdered(lo + 1, hi, yLo, yHi);
      var col, rest := Column(lo, yLo, yHi), Columns(lo + 1, hi, yLo, yHi);
      var all := Columns(lo, hi, yLo, yHi);
      assert all == col + rest;
      forall i, j | 0 <= i < j < |all| ensures XMajorBefore(all[i], all[j]) {
        if j < |col| {
          assert all[i] == col[i] && all[j] == col[j];
        } else if i >= |col| {
          assert all[i] == rest[i - |col|] && all[j] == rest[j - |col|];
        } else {
          assert all[i] == col[i] && all[i] in col;
          assert all[j] == rest[j - |col|] && all[j] in rest;
        }
      }
    }
  }

  /** Iterating a rectangle yields exactly its cells, each once, in x-major order, and
      max(width, 0) * max(height, 0) of them. */
  lemma RectangleIteration(r: Rectangle)
    ensures |r.Cells()| == Max0(r.Width()) * Max0(r.Height())
    ensures forall c :: c in r.Cells() <==> r.Contains(c)
    ensures forall i, j :: 0 <= i < j < |r.Cells()| ==> XMajorBefore(r.Cells()[i], r.Cells()[j])
    ensures forall i, j :: 0 <= i < j < |r.Cells()| ==> r.Cells()[i] != r.Cells()[j]
  {
    ColumnsFacts(r.xMin, r.xMax, r.yMin, r.yMax);
  }
}
