/**
 * script.js: the older, self-contained rule set with its own piece
 * classes, move generator, starting board and click handler. It differs
 * from Piece.js throughout: step limits 3/4/6/8, reversed Triangle
 * directions, colour-blind eating by Triangles and Squares only, no eating
 * by Hexagons and Octagons, no merging by Octagons, and no turn order.
 */
module Legacy {

  import opened Wrappers
  import Grid

  const BOARD_SIZE: nat := 8

  datatype Color = Red | Black

  datatype Shape = Triangle | Square | Hexagon | Octagon

  datatype Piece = Piece(color: Color, shape: Shape)

  datatype Pos = Pos(row: int, col: int)

  /** A `{ row, col }` direction literal of a getValidMoves list. */
  datatype Step = Step(row: int, col: int)

  const North := Step(-1, 0)
  const South := Step(1, 0)
  const West := Step(0, -1)
  const East := Step(0, 1)
  const NorthWest := Step(-1, -1)
  const NorthEast := Step(-1, 1)
  const SouthWest := Step(1, -1)
  const SouthEast := Step(1, 1)

  /** `{ row, col }`, `{ row, col, eat: true }` and `{ row, col, merge }`. */
  datatype MoveKind = Plain | Eat | Merge(merged: Piece)

  datatype Move = Move(row: int, col: int, kind: MoveKind)

  type Board = seq<seq<Option<Piece>>>

  predicate WellFormed(b: Board)
  {
    Grid.IsSquare(b, BOARD_SIZE)
  }

  predicate IsInBounds(row: int, col: int)
  {
    0 <= row < BOARD_SIZE && 0 <= col < BOARD_SIZE
  }

  // ---------------------------------------------------------------------
  // The four classes
  // ---------------------------------------------------------------------

  /** `this.steps` set by each constructor. */
  function Steps(s: Shape): nat
  {
    match s
    case Triangle => 3
    case Square => 4
    case Hexagon => 6
    case Octagon => 8
  }

  /** The `directions` list of each class's getValidMoves. */
  function Directions(p: Piece): seq<Step>
  {
    match p.shape
    case Triangle => if p.color == Red then [South, NorthWest, NorthEast] else [North, SouthWest, SouthEast]
    case Square => [North, South, West, East]
    case Hexagon => [NorthWest, NorthEast, SouthWest, SouthEast, North, South]
    case Octagon => [North, South, West, East, NorthWest, NorthEast, SouthWest, SouthEast]
  }

  /** Every listed direction is a unit step, and no list repeats a direction. */
  lemma DirectionsAreUnitSteps(p: Piece)
    ensures forall d :: d in Directions(p) ==> -1 <= d.row <= 1 && -1 <= d.col <= 1 && d != Step(0, 0)
    ensures forall i, j :: 0 <= i < j < |Directions(p)| ==> Directions(p)[i] != Directions(p)[j]
    ensures p.shape == Hexagon ==> West !in Directions(p) && East !in Directions(p)
    ensures p.shape == Octagon ==> |Directions(p)| == 8
  {
  }

  /** mergeWith of Triangle, Square and Hexagon; the Octagon class has none. */
  function MergeWith(p: Piece, other: Piece): (r: Option<Piece>)
    requires p.shape != Octagon
    ensures r.Some? <==> other.shape == p.shape && other.color == p.color
    ensures r.Some? ==> r.value.color == p.color
    ensures r.Some? && p.shape == Triangle ==> r.value.shape == Square
    ensures r.Some? && p.shape == Square ==> r.value.shape == Hexagon
    ensures r.Some? && p.shape == Hexagon ==> r.value.shape == Octagon
  {
    match p.shape
    case Triangle => if other.shape == Triangle && other.color == p.color then Some(Piece(p.color, Square)) else None
    case Square => if other.shape == Square && other.color == p.color then Some(Piece(p.color, Hexagon)) else None
    case Hexagon => if other.shape == Hexagon && other.color == p.color then Some(Piece(p.color, Octagon)) else None
  }

  /** The `shapeAngles` table of Triangle.canEat. */
  function ShapeAngle(s: Shape): int
  {
    match s
    case Triangle => 30
    case Square => 90
    case Hexagon => 120
    case Octagon => 135
  }

  /** Triangle.canEat(targetPiece, rowDir, colDir): the target's colour is never looked at. */
  predicate TriangleCanEat(target: Piece, rowDir: int, colDir: int)
  {
    var allowed := [West, East, NorthWest, NorthEast, South];
    var isAllowedDirection := exists d :: d in allowed && d.row == rowDir && d.col == colDir;
    if target.shape == Triangle && isAllowedDirection then true
    else ShapeAngle(Triangle) < ShapeAngle(target.shape)
  }

  /**
   * Triangle.canEat holds for every Square, Hexagon and Octagon, and for a
   * Triangle exactly when the direction is W, E, NW, NE or S.
   */
  lemma TriangleEatTable(target: Piece, rowDir: int, colDir: int)
    ensures target.shape != Triangle ==> TriangleCanEat(target, rowDir, colDir)
    ensures target.shape == Triangle ==>
              (TriangleCanEat(target, rowDir, colDir)
               <==> Step(rowDir, colDir) in {West, East, NorthWest, NorthEast, South})
  {
    var allowed := [West, East, NorthWest, NorthEast, South];
    if Step(rowDir, colDir) in {West, East, NorthWest, NorthEast, South} {
      assert Step(rowDir, colDir) in allowed;
    }
  }

  /** Square.canEat(fromRow, fromCol, targetRow, targetCol, targetPiece): adjacent Triangles only, any colour. */
  predicate SquareCanEat(attacker: Piece, fromRow: int, fromCol: int, targetRow: int, targetCol: int, target: Piece)
  {
    if target.shape == Triangle then
      var rowDiff := targetRow - fromRow;
      var colDiff := targetCol - fromCol;
      if attacker.color == Red then
        (rowDiff == -1 && colDiff == 0) || (colDiff == -1 && rowDiff == 0) || (colDiff == 1 && rowDiff == 0)
      else
        (rowDiff == 1 && colDiff == 0) || (colDiff == -1 && rowDiff == 0) || (colDiff == 1 && rowDiff == 0)
    else false
  }

  // ---------------------------------------------------------------------
  // calculateMoves
  // ---------------------------------------------------------------------

  function Along(row: int, col: int, d: Step, k: int): Pos
  {
    Pos(row + d.row * k, col + d.col * k)
  }

  /**
   * The branch each class's calculateMoves takes on reaching an occupied
   * cell, after which it stops: Triangles and Squares merge with a twin or
   * eat what canEat allows, Hexagons only merge, Octagons only stop.
   */
  function OccupiedStep(p: Piece, fromRow: int, fromCol: int, d: Step, newRow: int, newCol: int, target: Piece): seq<Move>
  {
    var twin := target.shape == p.shape && target.color == p.color;
    match p.shape
    case Triangle =>
      if twin then [Move(newRow, newCol, Merge(MergeWith(p, target).value))]
      else if TriangleCanEat(target, d.row, d.col) then [Move(newRow, newCol, Eat)]
      else []
    case Square =>
      if twin then [Move(newRow, newCol, Merge(MergeWith(p, target).value))]
      else if SquareCanEat(p, fromRow, fromCol, newRow, newCol, target) then [Move(newRow, newCol, Eat)]
      else []
    case Hexagon =>
      if twin then [Move(newRow, newCol, Merge(MergeWith(p, target).value))] else []
    case Octagon => []
  }

  /** The moves the inner loop records in direction `d`, from step `i` on. */
  function Ray(p: Piece, fromRow: int, fromCol: int, d: Step, i: int, b: Board): seq<Move>
    requires WellFormed(b) && i >= 1
    decreases Steps(p.shape) - i
  {
    if i > Steps(p.shape) then []
    else
      var t := Along(fromRow, fromCol, d, i);
      if !IsInBounds(t.row, t.col) then []
      else
        match b[t.row][t.col]
        case None => [Move(t.row, t.col, Plain)] + Ray(p, fromRow, fromCol, d, i + 1, b)
        case Some(target) => OccupiedStep(p, fromRow, fromCol, d, t.row, t.col, target)
  }

  /** What calculateMoves returns for a direction list. */
  function SlideMoves(p: Piece, fromRow: int, fromCol: int, dirs: seq<Step>, b: Board): seq<Move>
    requires WellFormed(b)
  {
    if dirs == [] then []
    else SlideMoves(p, fromRow, fromCol, dirs[..|dirs| - 1], b) + Ray(p, fromRow, fromCol, dirs[|dirs| - 1], 1, b)
  }

  /** What getValidMoves returns. */
  function ValidMoves(p: Piece, fromRow: int, fromCol: int, b: Board): seq<Move>
    requires WellFormed(b)
  {
    SlideMoves(p, fromRow, fromCol, Directions(p), b)
  }

  /** calculateMoves of the four classes (their loops are the same; the occupied-cell branch is OccupiedStep). */
  method CalculateMoves(piece: Piece, fromRow: int, fromCol: int, directions: seq<Step>, board: Board)
    returns (possibleMoves: seq<Move>)
    requires WellFormed(board)
    ensures possibleMoves == SlideMoves(piece, fromRow, fromCol, directions, board)
  {
    possibleMoves := [];
    for j := 0 to |directions|
      invariant possibleMoves == SlideMoves(piece, fromRow, fromCol, directions[..j], board)
    {
      var dir := directions[j];
      ghost var before := possibleMoves;
      var i := 1;
      while i <= Steps(piece.shape)
        invariant 1 <= i <= Steps(piece.shape) + 1
        invariant possibleMoves + Ray(piece, fromRow, fromCol, dir, i, board)
               == before + Ray(piece, fromRow, fromCol, dir, 1, board)
        decreases Steps(piece.shape) - i
      {
        var newRow := fromRow + dir.row * i;
        var newCol := fromCol + dir.col * i;
        if IsInBounds(newRow, newCol) {
          if board[newRow][newCol] == None {
            possibleMoves := possibleMoves + [Move(newRow, newCol, Plain)];
          } else {
            possibleMoves := possibleMoves + OccupiedStep(piece, fromRow, fromCol, dir, newRow, newCol, board[newRow][newCol].value);
            break;
          }
        } else {
          break;
        }
        i := i + 1;
      }
      assert possibleMoves == before + Ray(piece, fromRow, fromCol, dir, 1, board);
      assert directions[..j + 1][..j] == directions[..j];
    }
    assert directions[..|directions|] == directions;
  }

  /** getValidMoves of each class. */
  method GetValidMoves(piece: Piece, fromRow: int, fromCol: int, board: Board) returns (moves: seq<Move>)
    requires WellFormed(board)
    ensures moves == ValidMoves(piece, fromRow, fromCol, board)
  {
    moves := CalculateMoves(piece, fromRow, fromCol, Directions(piece), board);
  }

  // ---------------------------------------------------------------------
  // What the generator produces
  // ---------------------------------------------------------------------

  ghost predicate StepFree(b: Board, fromRow: int, fromCol: int, d: Step, j: int)
    requires WellFormed(b)
  {
    var t := Along(fromRow, fromCol, d, j);
    IsInBounds(t.row, t.col) && b[t.row][t.col].None?
  }

  ghost predicate PathClear(b: Board, fromRow: int, fromCol: int, d: Step, i: int, k: int)
    requires WellFormed(b)
  {
    forall j :: i <= j < k ==> StepFree(b, fromRow, fromCol, d, j)
  }

  /** The move's kind fits its target cell and the mover's class. */
  ghost predicate Fits(p: Piece, fromRow: int, fromCol: int, d: Step, cell: Option<Piece>, m: Move)
  {
    match m.kind
    case Plain => cell.None?
    case Eat =>
      && cell.Some?
      && !(cell.value.shape == p.shape && cell.value.color == p.color)
      && ((p.shape == Triangle && TriangleCanEat(cell.value, d.row, d.col))
          || (p.shape == Square && SquareCanEat(p, fromRow, fromCol, m.row, m.col, cell.value)))
    case Merge(merged) =>
      && cell.Some? && p.shape != Octagon
      && cell.value.shape == p.shape && cell.value.color == p.color
      && MergeWith(p, cell.value) == Some(merged)
  }

  ghost predicate ReachedAt(p: Piece, fromRow: int, fromCol: int, d: Step, k: int, b: Board, m: Move)
    requires WellFormed(b)
  {
    && 1 <= k <= Steps(p.shape)
    && Along(fromRow, fromCol, d, k) == Pos(m.row, m.col)
    && IsInBounds(m.row, m.col)
    && PathClear(b, fromRow, fromCol, d, 1, k)
    && Fits(p, fromRow, fromCol, d, b[m.row][m.col], m)
  }

  ghost predicate Legal(p: Piece, fromRow: int, fromCol: int, dirs: seq<Step>, b: Board, m: Move)
    requires WellFormed(b)
  {
    exists d, k :: d in dirs && ReachedAt(p, fromRow, fromCol, d, k, b, m)
  }

  lemma {:induction false} RaySound(p: Piece, fromRow: int, fromCol: int, d: Step, i: int, b: Board, m: Move)
    requires WellFormed(b) && i >= 1
    requires PathClear(b, fromRow, fromCol, d, 1, i)
    requires m in Ray(p, fromRow, fromCol, d, i, b)
    ensures exists k :: i <= k && ReachedAt(p, fromRow, fromCol, d, k, b, m)
    decreases Steps(p.shape) - i
  {
    var t := Along(fromRow, fromCol, d, i);
    match b[t.row][t.col]
    case None =>
      if m == Move(t.row, t.col, Plain) {
        assert ReachedAt(p, fromRow, fromCol, d, i, b, m);
      } else {
        assert StepFree(b, fromRow, fromCol, d, i);
        RaySound(p, fromRow, fromCol, d, i + 1, b, m);
      }
    case Some(target) =>
      assert ReachedAt(p, fromRow, fromCol, d, i, b, m);
  }

  lemma {:induction false} RayComplete(p: Piece, fromRow: int, fromCol: int, d: Step, i: int, k: int, b: Board, m: Move)
    requires WellFormed(b) && 1 <= i <= k
    requires ReachedAt(p, fromRow, fromCol, d, k, b, m)
    ensures m in Ray(p, fromRow, fromCol, d, i, b)
    decreases k - i
  {
    if i < k {
      assert StepFree(b, fromRow, fromCol, d, i);
      RayComplete(p, fromRow, fromCol, d, i + 1, k, b, m);
    }
  }

  /** calculateMoves is exact: a move is produced iff it is a legal slide along one of the directions. */
  lemma {:induction false} SlideMovesExact(p: Piece, fromRow: int, fromCol: int, dirs: seq<Step>, b: Board, m: Move)
    requires WellFormed(b)
    ensures m in SlideMoves(p, fromRow, fromCol, dirs, b) <==> Legal(p, fromRow, fromCol, dirs, b, m)
  {
    if dirs != [] {
      var init, last := dirs[..|dirs| - 1], dirs[|dirs| - 1];
      SlideMovesExact(p, fromRow, fromCol, init, b, m);
      if m in Ray(p, fromRow, fromCol, last, 1, b) {
        RaySound(p, fromRow, fromCol, last, 1, b, m);
      }
      if Legal(p, fromRow, fromCol, dirs, b, m) {
        var d, k :| d in dirs && ReachedAt(p, fromRow, fromCol, d, k, b, m);
        if d == last {
          RayComplete(p, fromRow, fromCol, d, 1, k, b, m);
        } else {
          assert d in init;
        }
      }
    }
  }

  /**
   * getValidMoves: every move is on the board, on one of the class's
   * directions at distance 1 .. steps over empty cells; plain moves go to
   * empty cells; eat moves are made only by Triangles and Squares, onto an
   * occupied cell their canEat accepts; merges only by Triangles, Squares
   * and Hexagons, onto a same-shape same-colour piece, yielding the next
   * shape.
   */
  lemma ValidMovesSound(p: Piece, fromRow: int, fromCol: int, b: Board, m: Move)
    requires WellFormed(b)
    requires m in ValidMoves(p, fromRow, fromCol, b)
    ensures IsInBounds(m.row, m.col)
    ensures exists d, k :: d in Directions(p) && ReachedAt(p, fromRow, fromCol, d, k, b, m)
    ensures m.kind.Plain? ==> b[m.row][m.col].None?
    ensures m.kind.Eat? ==> (p.shape == Triangle || p.shape == Square) && b[m.row][m.col].Some?
    ensures m.kind.Merge? ==> p.shape != Octagon && b[m.row][m.col] == Some(p)
                              && MergeWith(p, p) == Some(m.kind.merged)
    ensures (m.row, m.col) != (fromRow, fromCol)
  {
    SlideMovesExact(p, fromRow, fromCol, Directions(p), b, m);
    var d, k :| d in Directions(p) && ReachedAt(p, fromRow, fromCol, d, k, b, m);
    DirectionsAreUnitSteps(p);
    AlongMoves(fromRow, fromCol, d, k);
  }

  /** Every valid move targets a cell on the board. */
  lemma ValidMovesOnBoard(p: Piece, fromRow: int, fromCol: int, b: Board)
    requires WellFormed(b)
    ensures forall m :: m in ValidMoves(p, fromRow, fromCol, b) ==> IsInBounds(m.row, m.col)
  {
    forall m | m in ValidMoves(p, fromRow, fromCol, b)
      ensures IsInBounds(m.row, m.col)
    {
      ValidMovesSound(p, fromRow, fromCol, b, m);
    }
  }

  lemma AlongMoves(row: int, col: int, d: Step, k: int)
    requires k >= 1 && -1 <= d.row <= 1 && -1 <= d.col <= 1 && d != Step(0, 0)
    ensures Along(row, col, d, k) != Pos(row, col)
  {
    if d.row != 0 {
      assert d.row * k != 0;
    } else {
      assert d.col * k != 0;
    }
  }

  lemma ValidMovesComplete(p: Piece, fromRow: int, fromCol: int, b: Board, d: Step, k: int, m: Move)
    requires WellFormed(b)
    requires d in Directions(p) && ReachedAt(p, fromRow, fromCol, d, k, b, m)
    ensures m in ValidMoves(p, fromRow, fromCol, b)
  {
    SlideMovesExact(p, fromRow, fromCol, Directions(p), b, m);
  }

  /** Hexagons and Octagons never eat, and Octagons never merge. */
  lemma HexagonOctagonNeverEat(p: Piece, fromRow: int, fromCol: int, b: Board, m: Move)
    requires WellFormed(b) && (p.shape == Hexagon || p.shape == Octagon)
    requires m in ValidMoves(p, fromRow, fromCol, b)
    ensures !m.kind.Eat?
    ensures p.shape == Octagon ==> m.kind.Plain?
  {
    ValidMovesSound(p, fromRow, fromCol, b, m);
  }

  /** A Square eats only a Triangle, of either colour, on an adjacent cell: red N/W/E, black S/W/E. */
  lemma SquareEatsAdjacentTriangles(p: Piece, fromRow: int, fromCol: int, b: Board, m: Move)
    requires WellFormed(b) && p.shape == Square
    requires m in ValidMoves(p, fromRow, fromCol, b) && m.kind.Eat?
    ensures IsInBounds(m.row, m.col)
    ensures b[m.row][m.col].Some? && b[m.row][m.col].value.shape == Triangle
    ensures p.color == Red ==> Step(m.row - fromRow, m.col - fromCol) in {North, West, East}
    ensures p.color == Black ==> Step(m.row - fromRow, m.col - fromCol) in {South, West, East}
  {
    ValidMovesSound(p, fromRow, fromCol, b, m);
  }

  /**
   * A black Triangle never eats a Triangle: it slides N, SW and SE, none
   * of which is in Triangle.canEat's list of directions against Triangles.
   */
  lemma BlackTriangleNeverEatsTriangle(fromRow: int, fromCol: int, b: Board, m: Move)
    requires WellFormed(b)
    requires m in ValidMoves(Piece(Black, Triangle), fromRow, fromCol, b) && m.kind.Eat?
    ensures IsInBounds(m.row, m.col)
    ensures b[m.row][m.col].Some? && b[m.row][m.col].value.shape != Triangle
  {
    var p := Piece(Black, Triangle);
    SlideMovesExact(p, fromRow, fromCol, Directions(p), b, m);
    var d, k :| d in Directions(p) && ReachedAt(p, fromRow, fromCol, d, k, b, m);
    TriangleEatTable(b[m.row][m.col].value, d.row, d.col);
  }

  /**
   * Triangle.canEat ignores colour: a red Triangle whose southward slide
   * starts on any non-Triangle piece eats it, even a red one.
   */
  lemma RedTriangleEatsAnyPieceSouth(fromRow: int, fromCol: int, b: Board, target: Piece)
    requires WellFormed(b) && IsInBounds(fromRow + 1, fromCol)
    requires b[fromRow + 1][fromCol] == Some(target) && target.shape != Triangle
    ensures Move(fromRow + 1, fromCol, Eat) in ValidMoves(Piece(Red, Triangle), fromRow, fromCol, b)
  {
    var p := Piece(Red, Triangle);
    var m := Move(fromRow + 1, fromCol, Eat);
    TriangleEatTable(target, South.row, South.col);
    assert Along(fromRow, fromCol, South, 1) == Pos(m.row, m.col);
    assert ReachedAt(p, fromRow, fromCol, South, 1, b, m);
    ValidMovesComplete(p, fromRow, fromCol, b, South, 1, m);
  }

  // ---------------------------------------------------------------------
  // Board and click handler
  // ---------------------------------------------------------------------

  /** initialBoard: red Triangles on rows 0-1, black Triangles on rows 6-7. */
  function InitialBoard(): (b: Board)
    ensures WellFormed(b)
  {
    seq(BOARD_SIZE, row =>
      seq(BOARD_SIZE, col =>
        if row < 2 then Some(Piece(Red, Triangle))
        else if row > 5 then Some(Piece(Black, Triangle))
        else None))
  }

  /** Red Triangles fill rows 0-1, black Triangles rows 6-7, and rows 2-5 are empty. */
  lemma InitialBoardLayout()
    ensures forall r, c :: IsInBounds(r, c) && r <= 1 ==> InitialBoard()[r][c] == Some(Piece(Red, Triangle))
    ensures forall r, c :: IsInBounds(r, c) && r >= 6 ==> InitialBoard()[r][c] == Some(Piece(Black, Triangle))
    ensures forall r, c :: IsInBounds(r, c) && 2 <= r <= 5 ==> InitialBoard()[r][c] == None
  {
  }

  /** `highlightedMoves.find(move => move.row === row && move.col === col)` */
  function FindMove(ms: seq<Move>, row: int, col: int): (r: Option<Move>)
    ensures r.Some? ==> r.value in ms && r.value.row == row && r.value.col == col
    ensures r.None? <==> forall m :: m in ms ==> m.row != row || m.col != col
  {
    if ms == [] then None
    else if ms[0].row == row && ms[0].col == col then Some(ms[0])
    else FindMove(ms[1..], row, col)
  }

  /** The board after the selected piece plays `m`: the target gets the merged or the moving piece, then the origin is emptied. */
  function ApplyMove(b: Board, from: Pos, piece: Piece, m: Move): (r: Board)
    requires WellFormed(b) && IsInBounds(from.row, from.col) && IsInBounds(m.row, m.col)
    ensures WellFormed(r)
  {
    var target := if m.kind.Merge? then Some(m.kind.merged) else Some(piece);
    Grid.Place(Grid.Place(b, m.row, m.col, target), from.row, from.col, None)
  }

  /**
   * Playing a valid move: the origin is emptied, the target holds the
   * merged or the moving piece, no other cell changes, and the piece count
   * is unchanged by a plain move and drops by one on a merge or an eat.
   */
  lemma ApplyValidMove(b: Board, from: Pos, piece: Piece, m: Move)
    requires WellFormed(b) && IsInBounds(from.row, from.col)
    requires b[from.row][from.col] == Some(piece)
    requires m in ValidMoves(piece, from.row, from.col, b)
    ensures IsInBounds(m.row, m.col)
    ensures var r := ApplyMove(b, from, piece, m);
            && r[from.row][from.col] == None
            && r[m.row][m.col] == (if m.kind.Merge? then Some(m.kind.merged) else Some(piece))
            && (forall i, j :: IsInBounds(i, j) && (i, j) != (from.row, from.col) && (i, j) != (m.row, m.col)
                  ==> r[i][j] == b[i][j])
            && Grid.Count(r) == Grid.Count(b) - (if m.kind.Plain? then 0 else 1)
  {
    ValidMovesSound(piece, from.row, from.col, b, m);
    var target := if m.kind.Merge? then Some(m.kind.merged) else Some(piece);
    var b1 := Grid.Place(b, m.row, m.col, target);
    Grid.PlaceCount(b, m.row, m.col, target);
    Grid.PlaceCount(b1, from.row, from.col, None);
  }

  /** The globals of script.js: initialBoard, selectedPiece, selectedPosition, highlightedMoves. */
  class LegacyGame {
    var board: Board
    var selectedPiece: Option<Piece>
    var selectedPosition: Option<Pos>
    var highlightedMoves: seq<Move>

    /**
     * A piece is selected together with its position, still stands there,
     * and the highlights are its valid moves on the current board.
     */
    ghost predicate Valid()
      reads this
    {
      && WellFormed(board)
      && (selectedPiece.Some? <==> selectedPosition.Some?)
      && (selectedPiece.Some? ==>
            var pos := selectedPosition.value;
            && IsInBounds(pos.row, pos.col)
            && board[pos.row][pos.col] == selectedPiece
            && highlightedMoves == ValidMoves(selectedPiece.value, pos.row, pos.col, board))
    }

    constructor ()
      ensures Valid()
      ensures board == InitialBoard()
      ensures selectedPiece == None && selectedPosition == None && highlightedMoves == []
    {
      board := InitialBoard();
      selectedPiece := None;
      selectedPosition := None;
      highlightedMoves := [];
    }

    /**
     * selectPiece. With a piece selected, a click on a highlighted cell
     * plays that move, and any click clears the selection. With nothing
     * selected, a click on any piece, of either colour, selects it and
     * highlights its valid moves; a click on an empty cell changes nothing.
     */
    method SelectPiece(row: int, col: int)
      requires Valid() && IsInBounds(row, col)
      modifies this
      ensures Valid()
      ensures old(selectedPiece).Some? ==>
                var move := FindMove(old(highlightedMoves), row, col);
                && board == (if move.Some?
                             then ApplyMove(old(board), old(selectedPosition).value, old(selectedPiece).value, move.value)
                             else old(board))
                && selectedPiece == None && selectedPosition == None && highlightedMoves == []
      ensures old(selectedPiece).None? ==>
                var piece := old(board)[row][col];
                && board == old(board)
                && (if piece.Some?
                    then selectedPiece == piece && selectedPosition == Some(Pos(row, col))
                         && highlightedMoves == ValidMoves(piece.value, row, col, board)
                    else selectedPiece == None && selectedPosition == None
                         && highlightedMoves == old(highlightedMoves))
    {
      var piece := board[row][col];
      if selectedPiece.Some? {
        var move := FindMove(highlightedMoves, row, col);
        if move.Some? {
          var from := selectedPosition.value;
          ValidMovesOnBoard(selectedPiece.value, from.row, from.col, board);
          if move.value.kind.Merge? {
            board := Grid.Place(board, row, col, Some(move.value.kind.merged));
            board := Grid.Place(board, from.row, from.col, None);
          } else {
            board := Grid.Place(board, row, col, selectedPiece);
            board := Grid.Place(board, from.row, from.col, None);
          }
        }
        selectedPiece := None;
        selectedPosition := None;
        highlightedMoves := [];
      } else if piece.Some? {
        selectedPiece := piece;
        selectedPosition := Some(Pos(row, col));
        highlightedMoves := GetValidMoves(piece.value, row, col, board);
      }
    }

    /** The reset button: clears the selection only; the board and the highlighted moves stay. */
    method Reset()
      requires Valid()
      modifies this
      ensures Valid()
      ensures selectedPiece == None && selectedPosition == None
      ensures board == old(board) && highlightedMoves == old(highlightedMoves)
    {
      selectedPiece := None;
      selectedPosition := None;
    }
  }

}
