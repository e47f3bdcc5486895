/**
 * Constants.js: the board size and the table of the eight compass
 * directions, each a unit step `{ row, col }` on the grid (row grows
 * southwards, column grows eastwards).
 */
module Constants {

  /** Number of rows and of columns of the board. */
  const BOARD_SIZE: nat := 8

  /** A `{ row, col }` pair: a direction vector or a row/column offset. */
  datatype Vec = Vec(row: int, col: int)

  /** The keys of the DIRECTIONS object. */
  datatype Direction = N | S | E | W | NE | NW | SE | SW

  /** DIRECTIONS[d]: the unit step of direction `d`. */
  function Vector(d: Direction): (v: Vec)
    ensures -1 <= v.row <= 1 && -1 <= v.col <= 1
    ensures v != Vec(0, 0)
  {
    match d
    case N => Vec(-1, 0)
    case S => Vec(1, 0)
    case E => Vec(0, 1)
    case W => Vec(0, -1)
    case NE => Vec(-1, 1)
    case NW => Vec(-1, -1)
    case SE => Vec(1, 1)
    case SW => Vec(1, -1)
  }

  /** Object.values(DIRECTIONS): the eight directions in declaration order. */
  const DIRECTIONS: seq<Direction> := [N, S, E, W, NE, NW, SE, SW]

  function Negate(v: Vec): Vec
  {
    Vec(-v.row, -v.col)
  }

  /** The table lists eight directions, every direction once, with pairwise distinct vectors. */
  lemma DirectionsDistinct()
    ensures |DIRECTIONS| == 8
    ensures forall d: Direction :: d in DIRECTIONS
    ensures forall i, j :: 0 <= i < j < |DIRECTIONS| ==> Vector(DIRECTIONS[i]) != Vector(DIRECTIONS[j])
    ensures forall d1: Direction, d2: Direction :: Vector(d1) == Vector(d2) ==> d1 == d2
  {
    forall d: Direction ensures d in DIRECTIONS {
      match d
      case N => assert DIRECTIONS[0] == d;
      case S => assert DIRECTIONS[1] == d;
      case E => assert DIRECTIONS[2] == d;
      case W => assert DIRECTIONS[3] == d;
      case NE => assert DIRECTIONS[4] == d;
      case NW => assert DIRECTIONS[5] == d;
      case SE => assert DIRECTIONS[6] == d;
      case SW => assert DIRECTIONS[7] == d;
    }
  }

  /** N/S, E/W, NE/SW and NW/SE are opposite pairs. */
  lemma OppositesNegate()
    ensures Vector(S) == Negate(Vector(N)) && Vector(W) == Negate(Vector(E))
    ensures Vector(SW) == Negate(Vector(NE)) && Vector(SE) == Negate(Vector(NW))
  {
    assert Vector(N) == Vec(-1, 0) && Vector(S) == Vec(1, 0);
    assert Vector(E) == Vec(0, 1) && Vector(W) == Vec(0, -1);
    assert Vector(NE) == Vec(-1, 1) && Vector(SW) == Vec(1, -1);
    assert Vector(NW) == Vec(-1, -1) && Vector(SE) == Vec(1, 1);
  }

}
