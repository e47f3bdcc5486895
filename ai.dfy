/**
 * AI.js: getAIMove collects every piece of the computer's colour in
 * row-major order, flattens their valid moves into candidates, and picks
 * one of them with Math.random, or returns `null` when there is none.
 * The random number is a parameter in [0, 1).
 */
module AI {

  import opened Wrappers
  import opened Constants
  import opened Pieces

  /** `{ piece, position }`, an entry of aiPieces. */
  datatype Owned = Owned(piece: Piece, position: Pos)

  /** `{ from, to, moveDetails, piece }`, an entry of allValidMoves. */
  datatype Candidate = Candidate(from: Pos, to: Pos, moveDetails: Move, piece: Piece)

  /** The pieces of `color` in row `r`, columns 0 .. cEnd-1, left to right. */
  function RowPieces(b: Board, color: Color, r: int, cEnd: int): seq<Owned>
    requires 0 <= r < |b| && 0 <= cEnd <= |b[r]|
  {
    if cEnd == 0 then []
    else
      var cell := b[r][cEnd - 1];
      RowPieces(b, color, r, cEnd - 1)
      + (if cell.Some? && cell.value.color == color then [Owned(cell.value, Pos(r, cEnd - 1))] else [])
  }

  /** The pieces of `color` in rows 0 .. rEnd-1, in row-major order. */
  function ColorPieces(b: Board, color: Color, rEnd: int): seq<Owned>
    requires 0 <= rEnd <= |b|
  {
    if rEnd == 0 then [] else ColorPieces(b, color, rEnd - 1) + RowPieces(b, color, rEnd - 1, |b[rEnd - 1]|)
  }

  /** One piece's valid moves, each wrapped as a candidate. */
  function Wrap(o: Owned, ms: seq<Move>): (cs: seq<Candidate>)
    ensures |cs| == |ms|
  {
    seq(|ms|, i requires 0 <= i < |ms| => Candidate(o.position, Pos(ms[i].row, ms[i].col), ms[i], o.piece))
  }

  lemma WrapSnoc(o: Owned, ms: seq<Move>, k: int)
    requires 0 <= k < |ms|
    ensures Wrap(o, ms[..k + 1]) == Wrap(o, ms[..k]) + [Candidate(o.position, Pos(ms[k].row, ms[k].col), ms[k], o.piece)]
  {
  }

  /** The valid moves of each listed piece, in list order. */
  function MoveLists(ps: seq<Owned>, b: Board): (mss: seq<seq<Move>>)
    requires WellFormed(b)
    ensures |mss| == |ps|
    ensures forall i :: 0 <= i < |ps| ==> mss[i] == ValidMoves(ps[i].piece, ps[i].position.row, ps[i].position.col, b)
  {
    seq(|ps|, i requires 0 <= i < |ps| => ValidMoves(ps[i].piece, ps[i].position.row, ps[i].position.col, b))
  }

  /** The pieces' move lists wrapped as candidates and concatenated in list order. */
  function Flatten(ps: seq<Owned>, mss: seq<seq<Move>>): seq<Candidate>
    requires |mss| == |ps|
  {
    if ps == [] then []
    else Flatten(ps[..|ps| - 1], mss[..|ps| - 1]) + Wrap(ps[|ps| - 1], mss[|ps| - 1])
  }

  /** allValidMoves for `color`. */
  function AllCandidates(b: Board, color: Color): seq<Candidate>
    requires WellFormed(b)
  {
    var ps := ColorPieces(b, color, |b|);
    Flatten(ps, MoveLists(ps, b))
  }

  /** `Math.floor(random * n)`: an index into a list of `n` elements. */
  function Pick(random: real, n: nat): (i: int)
    requires 0.0 <= random < 1.0 && n > 0
    ensures 0 <= i < n
  {
    assert random * (n as real) < n as real;
    (random * (n as real)).Floor
  }

  /** getAIMove */
  method GetAIMove(board: Board, aiColor: Color, random: real) returns (selectedMove: Option<Candidate>)
    requires WellFormed(board)
    requires 0.0 <= random < 1.0
    ensures selectedMove.None? <==> AllCandidates(board, aiColor) == []
    ensures selectedMove.Some? ==>
              var all := AllCandidates(board, aiColor);
              selectedMove.value == all[Pick(random, |all|)]
  {
    var aiPieces := CollectPieces(board, aiColor);
    var allValidMoves := CollectCandidates(aiPieces, board);
    if |allValidMoves| == 0 {
      return None;
    }
    selectedMove := Some(allValidMoves[Pick(random, |allValidMoves|)]);
  }

  /** The first loop of getAIMove: the pieces of `aiColor`, scanned row by row. */
  method CollectPieces(board: Board, aiColor: Color) returns (aiPieces: seq<Owned>)
    requires WellFormed(board)
    ensures aiPieces == ColorPieces(board, aiColor, |board|)
  {
    aiPieces := [];
    var row := 0;
    while row < |board|
      invariant 0 <= row <= |board|
      invariant aiPieces == ColorPieces(board, aiColor, row)
    {
      var col := 0;
      while col < |board[row]|
        invariant 0 <= col <= |board[row]|
        invariant aiPieces == ColorPieces(board, aiColor, row) + RowPieces(board, aiColor, row, col)
      {
        var piece := board[row][col];
        if piece.Some? && piece.value.color == aiColor {
          aiPieces := aiPieces + [Owned(piece.value, Pos(row, col))];
        }
        col := col + 1;
      }
      row := row + 1;
    }
  }

  /** The second loop of getAIMove: every collected piece's valid moves, wrapped as candidates. */
  method CollectCandidates(aiPieces: seq<Owned>, board: Board) returns (allValidMoves: seq<Candidate>)
    requires WellFormed(board)
    ensures allValidMoves == Flatten(aiPieces, MoveLists(aiPieces, board))
  {
    allValidMoves := [];
    for j := 0 to |aiPieces|
      invariant allValidMoves == Flatten(aiPieces[..j], MoveLists(aiPieces, board)[..j])
    {
      var o := aiPieces[j];
      var validMoves := GetValidMoves(o.piece, o.position.row, o.position.col, board);
      FlattenStep(aiPieces, MoveLists(aiPieces, board), j);
      allValidMoves := PushCandidates(allValidMoves, o, validMoves);
    }
    assert aiPieces[..|aiPieces|] == aiPieces;
    assert MoveLists(aiPieces, board)[..|aiPieces|] == MoveLists(aiPieces, board);
  }

  /** Flattening one more piece appends that piece's wrapped moves. */
  lemma FlattenStep(ps: seq<Owned>, mss: seq<seq<Move>>, j: int)
    requires |mss| == |ps| && 0 <= j < |ps|
    ensures Flatten(ps[..j + 1], mss[..j + 1]) == Flatten(ps[..j], mss[..j]) + Wrap(ps[j], mss[j])
  {
    assert ps[..j + 1][..j] == ps[..j] && ps[..j + 1][j] == ps[j];
    assert mss[..j + 1][..j] == mss[..j] && mss[..j + 1][j] == mss[j];
  }

  /** The inner `validMoves.forEach`: push one candidate per move, in order. */
  method PushCandidates(acc: seq<Candidate>, o: Owned, validMoves: seq<Move>) returns (r: seq<Candidate>)
    ensures r == acc + Wrap(o, validMoves)
  {
    r := acc;
    for k := 0 to |validMoves|
      invariant r == acc + Wrap(o, validMoves[..k])
    {
      var move := validMoves[k];
      WrapSnoc(o, validMoves, k);
      r := r + [Candidate(o.position, Pos(move.row, move.col), move, o.piece)];
    }
    assert validMoves[..|validMoves|] == validMoves;
  }

  // ---------------------------------------------------------------------
  // Properties of the candidate list
  // ---------------------------------------------------------------------

  lemma {:induction false} RowPiecesExact(b: Board, color: Color, r: int, cEnd: int, o: Owned)
    requires 0 <= r < |b| && 0 <= cEnd <= |b[r]|
    ensures o in RowPieces(b, color, r, cEnd)
            <==> o.position.row == r && 0 <= o.position.col < cEnd
                 && b[r][o.position.col] == Some(o.piece) && o.piece.color == color
  {
    if cEnd > 0 {
      RowPiecesExact(b, color, r, cEnd - 1, o);
    }
  }

  /** aiPieces holds exactly the cells with a piece of the computer's colour. */
  lemma {:induction false} ColorPiecesExact(b: Board, color: Color, rEnd: int, o: Owned)
    requires WellFormed(b) && 0 <= rEnd <= |b|
    ensures o in ColorPieces(b, color, rEnd)
            <==> 0 <= o.position.row < rEnd && IsInBounds(o.position.row, o.position.col)
                 && b[o.position.row][o.position.col] == Some(o.piece) && o.piece.color == color
  {
    if rEnd > 0 {
      ColorPiecesExact(b, color, rEnd - 1, o);
      RowPiecesExact(b, color, rEnd - 1, |b[rEnd - 1]|, o);
    }
  }

  lemma WrapAt(o: Owned, ms: seq<Move>, c: Candidate)
    requires c in Wrap(o, ms)
    ensures c.piece == o.piece && c.from == o.position && c.moveDetails in ms
    ensures c.to == Pos(c.moveDetails.row, c.moveDetails.col)
  {
    var i :| 0 <= i < |ms| && Wrap(o, ms)[i] == c;
  }

  /** A candidate comes from a listed piece and one of that piece's moves, unchanged. */
  lemma {:induction false} FlattenSound(ps: seq<Owned>, mss: seq<seq<Move>>, c: Candidate) returns (i: int)
    requires |mss| == |ps|
    requires c in Flatten(ps, mss)
    ensures 0 <= i < |ps| && ps[i] == Owned(c.piece, c.from) && c.moveDetails in mss[i]
    ensures c.to == Pos(c.moveDetails.row, c.moveDetails.col)
  {
    var n := |ps| - 1;
    if c in Flatten(ps[..n], mss[..n]) {
      i := FlattenSound(ps[..n], mss[..n], c);
    } else {
      WrapAt(ps[n], mss[n], c);
      i := n;
    }
  }

  /** The flattened list is empty iff every move list is. */
  lemma {:induction false} FlattenEmpty(ps: seq<Owned>, mss: seq<seq<Move>>)
    requires |mss| == |ps|
    ensures Flatten(ps, mss) == [] <==> forall i :: 0 <= i < |mss| ==> mss[i] == []
  {
    if ps != [] {
      var n := |ps| - 1;
      FlattenEmpty(ps[..n], mss[..n]);
      assert forall i :: 0 <= i < n ==> mss[..n][i] == mss[i];
    }
  }

  /**
   * Every candidate starts on a cell holding a piece of the computer's
   * colour, names that piece, carries one of its valid moves unchanged as
   * `moveDetails`, and targets that move's cell.
   */
  lemma CandidateFacts(b: Board, color: Color, c: Candidate)
    requires WellFormed(b)
    requires c in AllCandidates(b, color)
    ensures IsInBounds(c.from.row, c.from.col)
    ensures b[c.from.row][c.from.col] == Some(c.piece) && c.piece.color == color
    ensures c.moveDetails in ValidMoves(c.piece, c.from.row, c.from.col, b)
    ensures c.to == Pos(c.moveDetails.row, c.moveDetails.col)
  {
    var ps := ColorPieces(b, color, |b|);
    var i := FlattenSound(ps, MoveLists(ps, b), c);
    assert ps[i] in ps;
    ColorPiecesExact(b, color, |b|, ps[i]);
  }

  /** getAIMove returns null exactly when no piece of the computer's colour has a valid move. */
  lemma NoCandidatesIff(b: Board, color: Color)
    requires WellFormed(b)
    ensures AllCandidates(b, color) == []
            <==> forall r, c :: IsInBounds(r, c) && b[r][c].Some? && b[r][c].value.color == color
                   ==> ValidMoves(b[r][c].value, r, c, b) == []
  {
    var ps := ColorPieces(b, color, |b|);
    var mss := MoveLists(ps, b);
    FlattenEmpty(ps, mss);
    if AllCandidates(b, color) == [] {
      forall r, c | IsInBounds(r, c) && b[r][c].Some? && b[r][c].value.color == color
        ensures ValidMoves(b[r][c].value, r, c, b) == []
      {
        var o := Owned(b[r][c].value, Pos(r, c));
        ColorPiecesExact(b, color, |b|, o);
        var i :| 0 <= i < |ps| && ps[i] == o;
        assert mss[i] == [];
      }
    } else {
      var i :| 0 <= i < |mss| && mss[i] != [];
      assert ps[i] in ps;
      ColorPiecesExact(b, color, |b|, ps[i]);
    }
  }

}
