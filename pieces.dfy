/**
 * Piece.js: the four piece shapes, their slide directions and step limits,
 * the combat rule (`canCapture`), the merge rule (`mergeWith`) and the
 * slide-move generator `calculatePieceMoves`.
 *
 * A piece is a value (colour and shape); the per-shape subclasses of the
 * source become `match` expressions on the shape.
 */
module Pieces {

  import opened Wrappers
  import opened Constants
  import Grid

  datatype Color = Red | Black

  datatype Shape = Triangle | Square | Hexagon | Octagon

  datatype Piece = Piece(color: Color, shape: Shape)

  datatype Pos = Pos(row: int, col: int)

  /**
   * The three kinds of move object the generator pushes:
   * `{ row, col }`, `{ row, col, eat: true, both }` and `{ row, col, merge }`.
   */
  datatype MoveKind = Plain | Eat(both: bool) | Merge(merged: Piece)

  datatype Move = Move(row: int, col: int, kind: MoveKind)

  /** `board[row][col]` is `null` or a piece. */
  type Board = seq<seq<Option<Piece>>>

  predicate WellFormed(b: Board)
  {
    Grid.IsSquare(b, BOARD_SIZE)
  }

  /** isInBounds */
  predicate IsInBounds(row: int, col: int)
  {
    0 <= row < BOARD_SIZE && 0 <= col < BOARD_SIZE
  }

  // ---------------------------------------------------------------------
  // Per-shape tables
  // ---------------------------------------------------------------------

  /** The `steps` each subclass constructor passes to the base constructor. */
  function Steps(s: Shape): nat
  {
    match s
    case Triangle => 2
    case Square => 3
    case Hexagon => 5
    case Octagon => 7
  }

  /** getCorners */
  function Corners(s: Shape): nat
  {
    match s
    case Triangle => 3
    case Square => 4
    case Hexagon => 6
    case Octagon => 8
  }

  /** Step limits and corner counts grow with the tier. */
  lemma TierTables()
    ensures Steps(Triangle) < Steps(Square) < Steps(Hexagon) < Steps(Octagon)
    ensures Corners(Triangle) < Corners(Square) < Corners(Hexagon) < Corners(Octagon)
  {
  }

  /** getFrontDirections */
  function FrontDirections(p: Piece): seq<Direction>
  {
    match p.shape
    case Triangle => if p.color == Red then [N] else [S]
    case Square => [N, E, S, W]
    case Hexagon => if p.color == Red then [N, NE, NW] else [S, SE, SW]
    case Octagon => DIRECTIONS
  }

  /** The Hexagon's `directions.filter(dir => dir !== W && dir !== E)`. */
  function WithoutEastWest(ds: seq<Direction>): (r: seq<Direction>)
    ensures forall d :: d in r <==> d in ds && d != E && d != W
  {
    if ds == [] then []
    else (if ds[0] != E && ds[0] != W then [ds[0]] else []) + WithoutEastWest(ds[1..])
  }

  predicate IsOrthogonal(d: Direction)
  {
    d == N || d == S || d == E || d == W
  }

  /**
   * The direction list each subclass's getValidMoves hands to
   * calculatePieceMoves.
   */
  function MoveDirections(p: Piece): (ds: seq<Direction>)
    ensures p.shape == Triangle && p.color == Red ==> forall d :: d in ds <==> d == N || d == SW || d == SE
    ensures p.shape == Triangle && p.color == Black ==> forall d :: d in ds <==> d == S || d == NW || d == NE
    ensures p.shape == Square ==> forall d :: d in ds <==> IsOrthogonal(d)
    ensures p.shape == Hexagon ==> forall d :: d in ds <==> d != E && d != W
    ensures p.shape == Octagon ==> forall d :: d in ds
  {
    match p.shape
    case Triangle => if p.color == Red then [N, SW, SE] else [S, NW, NE]
    case Square => [N, E, S, W]
    case Hexagon =>
      HexagonListContents(p.color);
      WithoutEastWest(HexagonList(p.color))
    case Octagon =>
      DirectionsDistinct();
      DIRECTIONS
  }

  /** The Hexagon's colour-ordered list, before the filter. */
  function HexagonList(c: Color): seq<Direction>
  {
    if c == Red then [N, NE, NW, S, SE, SW] else [S, SE, SW, N, NE, NW]
  }

  /** Both colour orders list every direction but E and W. */
  lemma HexagonListContents(c: Color)
    ensures forall d :: d in HexagonList(c) <==> d != E && d != W
  {
    var ds := HexagonList(c);
    forall d ensures d in ds <==> d != E && d != W {
      match d
      case N => assert ds[if c == Red then 0 else 3] == N;
      case NE => assert ds[if c == Red then 1 else 4] == NE;
      case NW => assert ds[if c == Red then 2 else 5] == NW;
      case S => assert ds[if c == Red then 3 else 0] == S;
      case SE => assert ds[if c == Red then 4 else 1] == SE;
      case SW => assert ds[if c == Red then 5 else 2] == SW;
      case E =>
      case W =>
    }
  }

  // ---------------------------------------------------------------------
  // Combat
  // ---------------------------------------------------------------------

  /** Math.sign on integers. */
  function Sign(x: int): int
  {
    if x > 0 then 1 else if x < 0 then -1 else 0
  }

  /** The sign-normalised attack direction `{ row: sign(rowDiff), col: sign(colDiff) }`. */
  function AttackVector(fromRow: int, fromCol: int, targetRow: int, targetCol: int): Vec
  {
    Vec(Sign(targetRow - fromRow), Sign(targetCol - fromCol))
  }

  /** `ds.some(d => d.row === v.row && d.col === v.col)` */
  predicate Matches(ds: seq<Direction>, v: Vec)
  {
    exists d :: d in ds && Vector(d) == v
  }

  /** isSideOrBackAttack: the attack does not come from one of the target's front directions. */
  predicate IsSideOrBackAttack(dir: Vec, target: Piece)
  {
    !Matches(FrontDirections(target), dir)
  }

  /** The base class's canCapture. */
  predicate BaseCanCapture(attacker: Piece, target: Piece, fromRow: int, fromCol: int, targetRow: int, targetCol: int)
  {
    if attacker.color == target.color then false
    else
      var dir := AttackVector(fromRow, fromCol, targetRow, targetCol);
      if IsSideOrBackAttack(dir, target) then true
      else Corners(attacker.shape) <= Corners(target.shape)
  }

  /** Square.canCapture's allowed directions against a Triangle. */
  function SquareVersusTriangle(c: Color): seq<Direction>
  {
    if c == Red then [S, W, E, SW, SE] else [N, W, E, NW, NE]
  }

  /** Hexagon.canCapture's allowed directions against a Triangle (the code, not its comments). */
  function HexagonVersusTriangle(c: Color): seq<Direction>
  {
    if c == Black then [N, SW, SE] else [S, NW, NE]
  }

  /** Octagon.canCapture's allowed directions, by target shape. */
  function OctagonAllowed(c: Color, target: Shape): seq<Direction>
  {
    match target
    case Hexagon => [W, E]
    case Triangle => if c == Red then [S, W, E, NW, NE] else [N, W, E, SW, SE]
    case Square => [NW, NE, SW, SE]
    case Octagon => DIRECTIONS
  }

  /** canCapture, dispatched on the attacker's class. */
  predicate CanCapture(attacker: Piece, target: Piece, fromRow: int, fromCol: int, targetRow: int, targetCol: int)
  {
    var dir := AttackVector(fromRow, fromCol, targetRow, targetCol);
    match attacker.shape
    case Triangle => BaseCanCapture(attacker, target, fromRow, fromCol, targetRow, targetCol)
    case Square =>
      if target.shape == Triangle then Matches(SquareVersusTriangle(attacker.color), dir)
      else BaseCanCapture(attacker, target, fromRow, fromCol, targetRow, targetCol)
    case Hexagon =>
      if target.shape == Triangle then Matches(HexagonVersusTriangle(attacker.color), dir)
      else BaseCanCapture(attacker, target, fromRow, fromCol, targetRow, targetCol)
    case Octagon => Matches(OctagonAllowed(attacker.color, target.shape), dir)
  }

  // ---------------------------------------------------------------------
  // Merging
  // ---------------------------------------------------------------------

  /** The shape two equal pieces merge into; two Octagons stay an Octagon. */
  function NextTier(s: Shape): Shape
  {
    match s
    case Triangle => Square
    case Square => Hexagon
    case Hexagon => Octagon
    case Octagon => Octagon
  }

  /**
   * mergeWith: a new piece of the mover's colour, or `null`. Octagon's
   * `return this` is an Octagon of the mover's colour.
   */
  function MergeWith(p: Piece, other: Piece): (r: Option<Piece>)
    ensures r.Some? <==> other.shape == p.shape && other.color == p.color
    ensures r.Some? ==> r.value == Piece(p.color, NextTier(p.shape))
  {
    match p.shape
    case Triangle =>
      if other.shape == Triangle && other.color == p.color then Some(Piece(p.color, Square)) else None
    case Square =>
      if other.shape == Square && other.color == p.color then Some(Piece(p.color, Hexagon)) else None
    case Hexagon =>
      if other.shape == Hexagon && other.color == p.color then Some(Piece(p.color, Octagon)) else None
    case Octagon =>
      if other.shape == Octagon && other.color == p.color then Some(p) else None
  }

  /** Merging is symmetric in its two pieces. */
  lemma MergeSymmetric(a: Piece, b: Piece)
    ensures MergeWith(a, b) == MergeWith(b, a)
  {
  }

  // ---------------------------------------------------------------------
  // Move generation
  // ---------------------------------------------------------------------

  /** The cell `k` steps from (row, col) in direction `d`. */
  function Along(row: int, col: int, d: Direction, k: int): Pos
  {
    Pos(row + Vector(d).row * k, col + Vector(d).col * k)
  }

  /** The move (if any) recorded on reaching an occupied cell, after which the scan stops. */
  function OccupiedMove(p: Piece, fromRow: int, fromCol: int, newRow: int, newCol: int, target: Piece): seq<Move>
  {
    if target.color != p.color then
      // canCapture returns a boolean, so `combatResult === 'both'` is false
      if CanCapture(p, target, fromRow, fromCol, newRow, newCol) then [Move(newRow, newCol, Eat(false))] else []
    else
      match MergeWith(p, target)
      case Some(merged) => [Move(newRow, newCol, Merge(merged))]
      case None => []
  }

  /** The moves the inner `for` loop records in direction `d`, from step `i` on. */
  function Ray(p: Piece, fromRow: int, fromCol: int, d: Direction, i: int, b: Board): seq<Move>
    requires WellFormed(b) && i >= 1
    decreases Steps(p.shape) - i
  {
    if i > Steps(p.shape) then []
    else
      var t := Along(fromRow, fromCol, d, i);
      if !IsInBounds(t.row, t.col) then []
      else
        match b[t.row][t.col]
        case None => [Move(t.row, t.col, Plain)] + Ray(p, fromRow, fromCol, d, i + 1, b)
        case Some(target) => OccupiedMove(p, fromRow, fromCol, t.row, t.col, target)
  }

  /** What calculatePieceMoves returns: the rays of `dirs`, in order. */
  function SlideMoves(p: Piece, fromRow: int, fromCol: int, dirs: seq<Direction>, b: Board): seq<Move>
    requires WellFormed(b)
  {
    if dirs == [] then []
    else SlideMoves(p, fromRow, fromCol, dirs[..|dirs| - 1], b) + Ray(p, fromRow, fromCol, dirs[|dirs| - 1], 1, b)
  }

  /** What getValidMoves returns. */
  function ValidMoves(p: Piece, fromRow: int, fromCol: int, b: Board): seq<Move>
    requires WellFormed(b)
  {
    SlideMoves(p, fromRow, fromCol, MoveDirections(p), b)
  }

  /** calculatePieceMoves */
  method CalculatePieceMoves(piece: Piece, fromRow: int, fromCol: int, directions: seq<Direction>, board: Board)
    returns (possibleMoves: seq<Move>)
    requires WellFormed(board)
    ensures possibleMoves == SlideMoves(piece, fromRow, fromCol, directions, board)
  {
    possibleMoves := [];
    for j := 0 to |directions|
      invariant possibleMoves == SlideMoves(piece, fromRow, fromCol, directions[..j], board)
    {
      var dir := directions[j];
      ghost var before := possibleMoves;
      var i := 1;
      while i <= Steps(piece.shape)
        invariant 1 <= i <= Steps(piece.shape) + 1
        invariant possibleMoves + Ray(piece, fromRow, fromCol, dir, i, board)
               == before + Ray(piece, fromRow, fromCol, dir, 1, board)
        decreases Steps(piece.shape) - i
      {
        var newRow := fromRow + Vector(dir).row * i;
        var newCol := fromCol + Vector(dir).col * i;
        if IsInBounds(newRow, newCol) {
          var targetPiece := board[newRow][newCol];
          if targetPiece == None {
            possibleMoves := possibleMoves + [Move(newRow, newCol, Plain)];
          } else {
            var target := targetPiece.value;
            if target.color != piece.color {
              var combatResult := CanCapture(piece, target, fromRow, fromCol, newRow, newCol);
              if combatResult {
                possibleMoves := possibleMoves + [Move(newRow, newCol, Eat(false))];
              }
            } else {
              var mergedPiece := MergeWith(piece, target);
              if mergedPiece.Some? {
                possibleMoves := possibleMoves + [Move(newRow, newCol, Merge(mergedPiece.value))];
              }
            }
            break;
          }
        } else {
          break;
        }
        i := i + 1;
      }
      assert possibleMoves == before + Ray(piece, fromRow, fromCol, dir, 1, board);
      assert directions[..j + 1][..j] == directions[..j];
    }
    assert directions[..|directions|] == directions;
  }

  /** getValidMoves of each subclass. */
  method GetValidMoves(piece: Piece, fromRow: int, fromCol: int, board: Board) returns (moves: seq<Move>)
    requires WellFormed(board)
    ensures moves == ValidMoves(piece, fromRow, fromCol, board)
  {
    moves := CalculatePieceMoves(piece, fromRow, fromCol, MoveDirections(piece), board);
  }


  // ---------------------------------------------------------------------
  // What the generator produces, stated without the scan
  // ---------------------------------------------------------------------

  /** The `j`-th cell of the scan in direction `d` is on the board and empty. */
  ghost predicate StepFree(b: Board, fromRow: int, fromCol: int, d: Direction, j: int)
    requires WellFormed(b)
  {
    var t := Along(fromRow, fromCol, d, j);
    IsInBounds(t.row, t.col) && b[t.row][t.col].None?
  }

  /** Every cell at steps i .. k-1 in direction `d` is on the board and empty. */
  ghost predicate PathClear(b: Board, fromRow: int, fromCol: int, d: Direction, i: int, k: int)
    requires WellFormed(b)
  {
    forall j :: i <= j < k ==> StepFree(b, fromRow, fromCol, d, j)
  }

  /** The move's kind fits the content of its target cell. */
  ghost predicate Fits(p: Piece, fromRow: int, fromCol: int, cell: Option<Piece>, m: Move)
  {
    match m.kind
    case Plain => cell.None?
    case Eat(both) =>
      cell.Some? && cell.value.color != p.color && !both
      && CanCapture(p, cell.value, fromRow, fromCol, m.row, m.col)
    case Merge(merged) =>
      cell.Some? && cell.value.color == p.color && MergeWith(p, cell.value) == Some(merged)
  }

  /** `m` lies `k` steps (1 .. steps) away in direction `d`, over empty cells, and fits its target. */
  ghost predicate ReachedAt(p: Piece, fromRow: int, fromCol: int, d: Direction, k: int, b: Board, m: Move)
    requires WellFormed(b)
  {
    && 1 <= k <= Steps(p.shape)
    && Along(fromRow, fromCol, d, k) == Pos(m.row, m.col)
    && IsInBounds(m.row, m.col)
    && PathClear(b, fromRow, fromCol, d, 1, k)
    && Fits(p, fromRow, fromCol, b[m.row][m.col], m)
  }

  /** `m` is a legal slide of `p` along one of `dirs`. */
  ghost predicate Legal(p: Piece, fromRow: int, fromCol: int, dirs: seq<Direction>, b: Board, m: Move)
    requires WellFormed(b)
  {
    exists d, k :: d in dirs && ReachedAt(p, fromRow, fromCol, d, k, b, m)
  }

  lemma {:induction false} RaySound(p: Piece, fromRow: int, fromCol: int, d: Direction, i: int, b: Board, m: Move)
    requires WellFormed(b) && i >= 1
    requires PathClear(b, fromRow, fromCol, d, 1, i)
    requires m in Ray(p, fromRow, fromCol, d, i, b)
    ensures exists k :: i <= k && ReachedAt(p, fromRow, fromCol, d, k, b, m)
    decreases Steps(p.shape) - i
  {
    var t := Along(fromRow, fromCol, d, i);
    match b[t.row][t.col]
    case None =>
      if m == Move(t.row, t.col, Plain) {
        assert ReachedAt(p, fromRow, fromCol, d, i, b, m);
      } else {
        assert StepFree(b, fromRow, fromCol, d, i);
        RaySound(p, fromRow, fromCol, d, i + 1, b, m);
      }
    case Some(target) =>
      assert ReachedAt(p, fromRow, fromCol, d, i, b, m);
  }

  lemma {:induction false} RayComplete(p: Piece, fromRow: int, fromCol: int, d: Direction, i: int, k: int, b: Board, m: Move)
    requires WellFormed(b) && 1 <= i <= k
    requires ReachedAt(p, fromRow, fromCol, d, k, b, m)
    ensures m in Ray(p, fromRow, fromCol, d, i, b)
    decreases k - i
  {
    if i < k {
      assert StepFree(b, fromRow, fromCol, d, i);
      RayComplete(p, fromRow, fromCol, d, i + 1, k, b, m);
    }
  }

  /**
   * The generator is exact: a move is produced iff it is a legal slide
   * along one of the given directions.
   */
  lemma {:induction false} SlideMovesExact(p: Piece, fromRow: int, fromCol: int, dirs: seq<Direction>, b: Board, m: Move)
    requires WellFormed(b)
    ensures m in SlideMoves(p, fromRow, fromCol, dirs, b) <==> Legal(p, fromRow, fromCol, dirs, b, m)
  {
    if dirs != [] {
      var init, last := dirs[..|dirs| - 1], dirs[|dirs| - 1];
      SlideMovesExact(p, fromRow, fromCol, init, b, m);
      if m in Ray(p, fromRow, fromCol, last, 1, b) {
        RaySound(p, fromRow, fromCol, last, 1, b, m);
      }
      if Legal(p, fromRow, fromCol, dirs, b, m) {
        var d, k :| d in dirs && ReachedAt(p, fromRow, fromCol, d, k, b, m);
        if d == last {
          RayComplete(p, fromRow, fromCol, d, 1, k, b, m);
        } else {
          assert d in init;
        }
      }
    }
  }

  /**
   * getValidMoves: every move is on the board, on one of the piece's
   * directions at distance 1 .. steps, over empty cells, and its kind
   * matches its target: plain moves to empty cells, captures (never
   * `both`) of opposite-colour pieces that canCapture allows, merges with
   * same-colour pieces that mergeWith accepts.
   */
  lemma ValidMovesSound(p: Piece, fromRow: int, fromCol: int, b: Board, m: Move)
    requires WellFormed(b)
    requires m in ValidMoves(p, fromRow, fromCol, b)
    ensures IsInBounds(m.row, m.col)
    ensures exists d, k :: d in MoveDirections(p) && ReachedAt(p, fromRow, fromCol, d, k, b, m)
    ensures m.kind.Plain? ==> b[m.row][m.col].None?
    ensures m.kind.Eat? ==> !m.kind.both && b[m.row][m.col].Some? && b[m.row][m.col].value.color != p.color
    ensures m.kind.Merge? ==> b[m.row][m.col].Some? && b[m.row][m.col].value.color == p.color
                              && b[m.row][m.col].value.shape == p.shape
                              && m.kind.merged == Piece(p.color, NextTier(p.shape))
    ensures (m.row, m.col) != (fromRow, fromCol)
  {
    SlideMovesExact(p, fromRow, fromCol, MoveDirections(p), b, m);
    var d, k :| d in MoveDirections(p) && ReachedAt(p, fromRow, fromCol, d, k, b, m);
    AlongMoves(fromRow, fromCol, d, k);
  }

  /** Every valid move targets a cell on the board. */
  lemma ValidMovesOnBoard(p: Piece, fromRow: int, fromCol: int, b: Board)
    requires WellFormed(b)
    ensures forall m :: m in ValidMoves(p, fromRow, fromCol, b) ==> IsInBounds(m.row, m.col)
  {
    forall m | m in ValidMoves(p, fromRow, fromCol, b)
      ensures IsInBounds(m.row, m.col)
    {
      ValidMovesSound(p, fromRow, fromCol, b, m);
    }
  }

  /** A step of positive length leaves the starting cell. */
  lemma AlongMoves(row: int, col: int, d: Direction, k: int)
    requires k >= 1
    ensures Along(row, col, d, k) != Pos(row, col)
  {
    match d
    case N => case S => case E => case W =>
    case NE => case NW => case SE => case SW =>
  }

  /** getValidMoves misses nothing: every legal slide along the piece's directions is produced. */
  lemma ValidMovesComplete(p: Piece, fromRow: int, fromCol: int, b: Board, d: Direction, k: int, m: Move)
    requires WellFormed(b)
    requires d in MoveDirections(p) && ReachedAt(p, fromRow, fromCol, d, k, b, m)
    ensures m in ValidMoves(p, fromRow, fromCol, b)
  {
    SlideMovesExact(p, fromRow, fromCol, MoveDirections(p), b, m);
  }

  /**
   * The scan of one direction stops at the first occupied or off-board
   * cell: its `j`-th move is `i + j` steps out, and every move but the last
   * is a plain move onto an empty cell, so an occupied cell contributes at
   * most one move and nothing beyond it is produced.
   */
  lemma {:induction false} RayShape(p: Piece, fromRow: int, fromCol: int, d: Direction, i: int, b: Board, j: int)
    requires WellFormed(b) && i >= 1
    requires 0 <= j < |Ray(p, fromRow, fromCol, d, i, b)|
    ensures var m := Ray(p, fromRow, fromCol, d, i, b)[j];
            Pos(m.row, m.col) == Along(fromRow, fromCol, d, i + j)
    ensures j < |Ray(p, fromRow, fromCol, d, i, b)| - 1 ==> Ray(p, fromRow, fromCol, d, i, b)[j].kind.Plain?
    decreases Steps(p.shape) - i
  {
    var t := Along(fromRow, fromCol, d, i);
    if j > 0 {
      assert b[t.row][t.col].None?;
      RayShape(p, fromRow, fromCol, d, i + 1, b, j - 1);
    }
  }


  // ---------------------------------------------------------------------
  // The combat rule as one table
  // ---------------------------------------------------------------------

  /** The named direction whose vector is `v`, if any. */
  function DirectionOf(v: Vec): (r: Option<Direction>)
    ensures r.Some? ==> Vector(r.value) == v
    ensures r.None? ==> forall d :: Vector(d) != v
  {
    if v == Vec(-1, 0) then Some(N)
    else if v == Vec(1, 0) then Some(S)
    else if v == Vec(0, 1) then Some(E)
    else if v == Vec(0, -1) then Some(W)
    else if v == Vec(-1, 1) then Some(NE)
    else if v == Vec(-1, -1) then Some(NW)
    else if v == Vec(1, 1) then Some(SE)
    else if v == Vec(1, -1) then Some(SW)
    else None
  }

  /** A direction list matches a vector iff the vector names one of its directions. */
  lemma MatchesIff(ds: seq<Direction>, v: Vec)
    ensures Matches(ds, v) <==> DirectionOf(v).Some? && DirectionOf(v).value in ds
  {
    DirectionsDistinct();
  }

  /** Between two distinct cells, the sign-normalised attack vector is one of the eight directions. */
  lemma AttackVectorNamed(fromRow: int, fromCol: int, targetRow: int, targetCol: int)
    requires fromRow != targetRow || fromCol != targetCol
    ensures DirectionOf(AttackVector(fromRow, fromCol, targetRow, targetCol)).Some?
  {
  }

  /** The direction an attack from (fromRow, fromCol) on a distinct (targetRow, targetCol) comes from. */
  function AttackDirection(fromRow: int, fromCol: int, targetRow: int, targetCol: int): Direction
    requires fromRow != targetRow || fromCol != targetCol
  {
    AttackVectorNamed(fromRow, fromCol, targetRow, targetCol);
    DirectionOf(AttackVector(fromRow, fromCol, targetRow, targetCol)).value
  }

  const AllDirections: set<Direction> := {N, S, E, W, NE, NW, SE, SW}
  const Diagonals: set<Direction> := {NE, NW, SE, SW}

  /**
   * The directions from which `a` captures an enemy `t`, per attacker and
   * defender shape and attacker colour, with the base flank/corner rule
   * worked out for every pairing it decides.
   */
  function AllowedAttacks(a: Piece, t: Piece): set<Direction>
  {
    match (a.shape, t.shape)
    case (Square, Triangle) => if a.color == Red then {S, W, E, SW, SE} else {N, W, E, NW, NE}
    case (Hexagon, Triangle) => if a.color == Red then {S, NW, NE} else {N, SW, SE}
    case (Hexagon, Square) => Diagonals
    case (Octagon, Triangle) => if a.color == Red then {S, W, E, NW, NE} else {N, W, E, SW, SE}
    case (Octagon, Square) => Diagonals
    case (Octagon, Hexagon) => {W, E}
    case _ => AllDirections
  }

  /**
   * canCapture between opposite colours on distinct cells succeeds exactly
   * when the attack direction is in the table: a Triangle captures anything
   * from anywhere, Square and Hexagon against a Triangle follow their
   * colour tables, a Hexagon takes a Square only diagonally (its six corners
   * lose a front attack), Octagons follow their per-target tables, and every
   * other pairing captures from all eight directions.
   */
  lemma CanCaptureTable(a: Piece, t: Piece, fromRow: int, fromCol: int, targetRow: int, targetCol: int)
    requires a.color != t.color
    requires fromRow != targetRow || fromCol != targetCol
    ensures CanCapture(a, t, fromRow, fromCol, targetRow, targetCol)
            <==> AttackDirection(fromRow, fromCol, targetRow, targetCol) in AllowedAttacks(a, t)
  {
    var v := AttackVector(fromRow, fromCol, targetRow, targetCol);
    match a.shape {
      case Triangle =>
        MatchesIff(FrontDirections(t), v);
      case Square =>
        if t.shape == Triangle {
          MatchesIff(SquareVersusTriangle(a.color), v);
        } else {
          MatchesIff(FrontDirections(t), v);
        }
      case Hexagon =>
        if t.shape == Triangle {
          MatchesIff(HexagonVersusTriangle(a.color), v);
        } else {
          MatchesIff(FrontDirections(t), v);
        }
      case Octagon =>
        MatchesIff(OctagonAllowed(a.color, t.shape), v);
    }
  }

  /** The base rule never captures a piece of the attacker's own colour. */
  lemma BaseNeverCapturesOwnColour(a: Piece, t: Piece, fromRow: int, fromCol: int, targetRow: int, targetCol: int)
    requires a.color == t.color
    ensures !BaseCanCapture(a, t, fromRow, fromCol, targetRow, targetCol)
  {
  }

  /** With three corners, a Triangle captures any enemy piece from any direction. */
  lemma TriangleCapturesAnyEnemy(a: Piece, t: Piece, fromRow: int, fromCol: int, targetRow: int, targetCol: int)
    requires a.shape == Triangle && a.color != t.color
    ensures CanCapture(a, t, fromRow, fromCol, targetRow, targetCol)
  {
  }

  /**
   * Square, Hexagon and Octagon decide by direction tables that ignore the
   * target's colour: swapping the target's colour changes nothing.
   */
  lemma TablesIgnoreTargetColour(a: Piece, t: Piece, c: Color, fromRow: int, fromCol: int, targetRow: int, targetCol: int)
    requires a.shape == Octagon || ((a.shape == Square || a.shape == Hexagon) && t.shape == Triangle)
    ensures CanCapture(a, t, fromRow, fromCol, targetRow, targetCol)
            == CanCapture(a, Piece(c, t.shape), fromRow, fromCol, targetRow, targetCol)
  {
  }

}
