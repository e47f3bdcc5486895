/**
 * Game.js: the module-level game state (board, selection, highlighted
 * moves, player to move), the click handler `selectPiece` that selects a
 * piece of the player to move or applies a highlighted move in place, and
 * the reset handler.
 */
module Game {

  import opened Wrappers
  import opened Constants
  import opened Pieces
  import Grid

  /** The starting board: black Triangles on rows 0-1, red Triangles on rows 6-7. */
  function InitialBoard(): (b: Board)
    ensures WellFormed(b)
  {
    seq(BOARD_SIZE, row =>
      seq(BOARD_SIZE, col =>
        if row < 2 then Some(Piece(Black, Triangle))
        else if row > 5 then Some(Piece(Red, Triangle))
        else None))
  }

  /** The starting board holds sixteen pieces of each colour, all Triangles, and nothing on rows 2-5. */
  lemma InitialBoardLayout()
    ensures forall r, c :: IsInBounds(r, c) && r <= 1 ==> InitialBoard()[r][c] == Some(Piece(Black, Triangle))
    ensures forall r, c :: IsInBounds(r, c) && r >= 6 ==> InitialBoard()[r][c] == Some(Piece(Red, Triangle))
    ensures forall r, c :: IsInBounds(r, c) && 2 <= r <= 5 ==> InitialBoard()[r][c] == None
  {
  }

  function Opponent(c: Color): Color
  {
    if c == Red then Black else Red
  }

  /** `highlightedMoves.find(move => move.row === row && move.col === col)` */
  function FindMove(ms: seq<Move>, row: int, col: int): (r: Option<Move>)
    ensures r.Some? ==> r.value in ms && r.value.row == row && r.value.col == col
    ensures r.None? <==> forall m :: m in ms ==> m.row != row || m.col != col
  {
    if ms == [] then None
    else if ms[0].row == row && ms[0].col == col then Some(ms[0])
    else FindMove(ms[1..], row, col)
  }

  /** `find` returns the first move on the clicked cell: none before it is on that cell. */
  lemma {:induction false} FindMoveFirst(ms: seq<Move>, row: int, col: int)
    requires FindMove(ms, row, col).Some?
    ensures exists i :: 0 <= i < |ms| && ms[i] == FindMove(ms, row, col).value
                        && forall j :: 0 <= j < i ==> ms[j].row != row || ms[j].col != col
  {
    if ms[0].row != row || ms[0].col != col {
      FindMoveFirst(ms[1..], row, col);
      var i :| 0 <= i < |ms[1..]| && ms[1..][i] == FindMove(ms, row, col).value
               && forall j :: 0 <= j < i ==> ms[1..][j].row != row || ms[1..][j].col != col;
      assert ms[i + 1] == FindMove(ms, row, col).value;
      assert forall j :: 0 <= j < i + 1 ==> ms[j].row != row || ms[j].col != col by {
        forall j | 0 <= j < i + 1 ensures ms[j].row != row || ms[j].col != col {
          if j > 0 { assert ms[j] == ms[1..][j - 1]; }
        }
      }
    } else {
      assert ms[0] == FindMove(ms, row, col).value;
    }
  }

  /**
   * The board after `piece`, standing on `from`, plays `m`: the target
   * receives the merged piece (merge), the attacker (capture) or the piece
   * (plain move), or is emptied with the attacker (`both`); the origin is
   * emptied last.
   */
  function ApplyMove(b: Board, from: Pos, piece: Piece, m: Move): (r: Board)
    requires WellFormed(b) && IsInBounds(from.row, from.col) && IsInBounds(m.row, m.col)
    ensures WellFormed(r)
  {
    var target :=
      match m.kind
      case Merge(merged) => Some(merged)
      case Eat(both) => if both then None else Some(piece)
      case Plain => Some(piece);
    Grid.Place(Grid.Place(b, m.row, m.col, target), from.row, from.col, None)
  }

  /**
   * Playing a valid move of the piece on `from`: the origin becomes empty,
   * the target holds the merged piece, the attacker or the moved piece
   * (`both` never occurs), no other cell changes, and the number of pieces
   * stays the same after a plain move and drops by one after a merge or a
   * capture.
   */
  lemma ApplyValidMove(b: Board, from: Pos, piece: Piece, m: Move)
    requires WellFormed(b) && IsInBounds(from.row, from.col)
    requires b[from.row][from.col] == Some(piece)
    requires m in ValidMoves(piece, from.row, from.col, b)
    ensures IsInBounds(m.row, m.col)
    ensures var r := ApplyMove(b, from, piece, m);
            && r[from.row][from.col] == None
            && r[m.row][m.col] == (if m.kind.Merge? then Some(m.kind.merged) else Some(piece))
            && (forall i, j :: IsInBounds(i, j) && (i, j) != (from.row, from.col) && (i, j) != (m.row, m.col)
                  ==> r[i][j] == b[i][j])
            && Grid.Count(r) == Grid.Count(b) - (if m.kind.Plain? then 0 else 1)
  {
    ValidMovesSound(piece, from.row, from.col, b, m);
    var target := if m.kind.Merge? then Some(m.kind.merged) else Some(piece);
    var b1 := Grid.Place(b, m.row, m.col, target);
    Grid.PlaceCount(b, m.row, m.col, target);
    Grid.PlaceCount(b1, from.row, from.col, None);
  }

  /** The state of Game.js: the board and the four module-level variables. */
  class Game {
    var board: Board
    var selectedPiece: Option<Piece>
    var selectedPosition: Option<Pos>
    var highlightedMoves: seq<Move>
    var currentPlayer: Color

    /**
     * A piece is selected together with its position; it belongs to the
     * player to move, still stands there, and the highlights are its valid
     * moves on the current board, all of them on the board. With nothing
     * selected nothing is highlighted.
     */
    ghost predicate Valid()
      reads this
    {
      && WellFormed(board)
      && (selectedPiece.Some? <==> selectedPosition.Some?)
      && (selectedPiece.None? ==> highlightedMoves == [])
      && (forall m :: m in highlightedMoves ==> IsInBounds(m.row, m.col))
      && (selectedPiece.Some? ==>
            var pos := selectedPosition.value;
            && IsInBounds(pos.row, pos.col)
            && board[pos.row][pos.col] == selectedPiece
            && selectedPiece.value.color == currentPlayer
            && highlightedMoves == ValidMoves(selectedPiece.value, pos.row, pos.col, board))
    }

    /** The state the module starts in: the initial board, red to move, nothing selected. */
    constructor ()
      ensures Valid()
      ensures board == InitialBoard() && currentPlayer == Red
      ensures selectedPiece == None && selectedPosition == None && highlightedMoves == []
    {
      board := InitialBoard();
      selectedPiece := None;
      selectedPosition := None;
      highlightedMoves := [];
      currentPlayer := Red;
    }

    /**
     * selectPiece. With a piece selected, a click on a highlighted cell
     * applies that move and passes the turn; any click then clears the
     * selection. With nothing selected, a click on a piece of the player to
     * move selects it and highlights its valid moves; any other click
     * changes nothing.
     */
    method SelectPiece(row: int, col: int)
      requires Valid() && IsInBounds(row, col)
      modifies this
      ensures Valid()
      ensures old(selectedPiece).Some? ==>
                var move := FindMove(old(highlightedMoves), row, col);
                && board == (if move.Some?
                             then ApplyMove(old(board), old(selectedPosition).value, old(selectedPiece).value, move.value)
                             else old(board))
                && currentPlayer == (if move.Some? then Opponent(old(currentPlayer)) else old(currentPlayer))
                && selectedPiece == None && selectedPosition == None && highlightedMoves == []
      ensures old(selectedPiece).None? ==>
                var piece := old(board)[row][col];
                && board == old(board) && currentPlayer == old(currentPlayer)
                && (if piece.Some? && piece.value.color == old(currentPlayer)
                    then selectedPiece == piece && selectedPosition == Some(Pos(row, col))
                         && highlightedMoves == ValidMoves(piece.value, row, col, board)
                    else selectedPiece == None && selectedPosition == None && highlightedMoves == [])
    {
      if selectedPiece.Some? {
        ClickWithSelection(row, col);
      } else {
        ClickWithoutSelection(row, col);
      }
    }

    /** selectPiece with a piece selected: play the highlighted move on the clicked cell, if any, then deselect. */
    method ClickWithSelection(row: int, col: int)
      requires Valid() && selectedPiece.Some?
      modifies this
      ensures Valid()
      ensures var move := FindMove(old(highlightedMoves), row, col);
              && board == (if move.Some?
                           then ApplyMove(old(board), old(selectedPosition).value, old(selectedPiece).value, move.value)
                           else old(board))
              && currentPlayer == (if move.Some? then Opponent(old(currentPlayer)) else old(currentPlayer))
              && selectedPiece == None && selectedPosition == None && highlightedMoves == []
    {
      var move := FindMove(highlightedMoves, row, col);
      if move.Some? {
        PlayMove(selectedPosition.value, move.value);
      }
      selectedPiece := None;
      selectedPosition := None;
      highlightedMoves := [];
    }

    /** selectPiece with nothing selected: select a piece of the player to move and highlight its moves. */
    method ClickWithoutSelection(row: int, col: int)
      requires Valid() && selectedPiece.None? && IsInBounds(row, col)
      modifies this
      ensures Valid()
      ensures var piece := old(board)[row][col];
              && board == old(board) && currentPlayer == old(currentPlayer)
              && (if piece.Some? && piece.value.color == old(currentPlayer)
                  then selectedPiece == piece && selectedPosition == Some(Pos(row, col))
                       && highlightedMoves == ValidMoves(piece.value, row, col, board)
                  else selectedPiece == None && selectedPosition == None && highlightedMoves == [])
    {
      var piece := board[row][col];
      if piece.Some? && piece.value.color == currentPlayer {
        selectedPiece := piece;
        selectedPosition := Some(Pos(row, col));
        highlightedMoves := GetValidMoves(piece.value, row, col, board);
        ValidMovesOnBoard(piece.value, row, col, board);
      }
    }

    /**
     * The move branch of selectPiece: writes the target cell (merged piece,
     * attacker, moved piece, or nothing for `both`), empties the origin and
     * passes the turn.
     */
    method PlayMove(from: Pos, m: Move)
      requires WellFormed(board) && selectedPiece.Some?
      requires IsInBounds(from.row, from.col) && IsInBounds(m.row, m.col)
      modifies this
      ensures board == ApplyMove(old(board), from, old(selectedPiece).value, m)
      ensures currentPlayer == Opponent(old(currentPlayer))
      ensures selectedPiece == old(selectedPiece) && selectedPosition == old(selectedPosition)
      ensures highlightedMoves == old(highlightedMoves)
    {
      match m.kind {
        case Merge(merged) =>
          board := Grid.Place(board, m.row, m.col, Some(merged));
          board := Grid.Place(board, from.row, from.col, None);
        case Eat(both) =>
          if both {
            board := Grid.Place(board, m.row, m.col, None);
            board := Grid.Place(board, from.row, from.col, None);
          } else {
            board := Grid.Place(board, m.row, m.col, selectedPiece);
            board := Grid.Place(board, from.row, from.col, None);
          }
        case Plain =>
          board := Grid.Place(board, m.row, m.col, selectedPiece);
          board := Grid.Place(board, from.row, from.col, None);
      }
      currentPlayer := if currentPlayer == Red then Black else Red;
    }

    /** The reset button: initial board, red to move, nothing selected. */
    method Reset()
      modifies this
      ensures Valid()
      ensures board == InitialBoard() && currentPlayer == Red
      ensures selectedPiece == None && selectedPosition == None && highlightedMoves == []
    {
      selectedPiece := None;
      selectedPosition := None;
      highlightedMoves := [];
      currentPlayer := Red;
      board := InitialBoard();
    }
  }

  /** Red, who moves first, has a valid move on the starting board: a Triangle can step north. */
  lemma RedCanMoveFirst()
    ensures Move(5, 0, Plain) in ValidMoves(Piece(Red, Triangle), 6, 0, InitialBoard())
  {
    var b := InitialBoard();
    var p := Piece(Red, Triangle);
    assert ReachedAt(p, 6, 0, N, 1, b, Move(5, 0, Plain));
    ValidMovesComplete(p, 6, 0, b, N, 1, Move(5, 0, Plain));
  }

}
