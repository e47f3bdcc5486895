/**
 * Square grids as nested sequences: the shape of a board, writing one
 * cell (`board[row][col] = x`) and counting the occupied cells.
 */
module Grid {

  import opened Wrappers

  /** `g` has `n` rows of `n` cells each. */
  predicate IsSquare<T>(g: seq<seq<T>>, n: nat)
  {
    |g| == n && forall r :: 0 <= r < n ==> |g[r]| == n
  }

  /** The grid after `g[r][c] = x`. */
  function Place<T>(g: seq<seq<T>>, r: int, c: int, x: T): (h: seq<seq<T>>)
    requires 0 <= r < |g| && 0 <= c < |g[r]|
    ensures |h| == |g| && forall i :: 0 <= i < |g| ==> |h[i]| == |g[i]|
    ensures h[r][c] == x
    ensures forall i, j :: 0 <= i < |g| && 0 <= j < |g[i]| && (i != r || j != c) ==> h[i][j] == g[i][j]
  {
    g[r := g[r][c := x]]
  }

  /** Number of occupied cells in one row. */
  function CountRow<T>(s: seq<Option<T>>): nat
  {
    if s == [] then 0 else (if s[0].Some? then 1 else 0) + CountRow(s[1..])
  }

  /** Number of occupied cells in the grid. */
  function Count<T>(g: seq<seq<Option<T>>>): nat
  {
    if g == [] then 0 else CountRow(g[0]) + Count(g[1..])
  }

  lemma {:induction false} CountRowUpdate<T>(s: seq<Option<T>>, c: int, x: Option<T>)
    requires 0 <= c < |s|
    ensures CountRow(s[c := x]) + (if s[c].Some? then 1 else 0) == CountRow(s) + (if x.Some? then 1 else 0)
  {
    if c > 0 {
      assert s[c := x][1..] == s[1..][c - 1 := x];
      CountRowUpdate(s[1..], c - 1, x);
    } else {
      assert s[c := x][1..] == s[1..];
    }
  }

  /** Writing one cell changes the count by what leaves and what enters that cell. */
  lemma {:induction false} PlaceCount<T>(g: seq<seq<Option<T>>>, r: int, c: int, x: Option<T>)
    requires 0 <= r < |g| && 0 <= c < |g[r]|
    ensures Count(Place(g, r, c, x)) + (if g[r][c].Some? then 1 else 0) == Count(g) + (if x.Some? then 1 else 0)
  {
    var h := Place(g, r, c, x);
    if r > 0 {
      assert h[1..] == Place(g[1..], r - 1, c, x);
      PlaceCount(g[1..], r - 1, c, x);
    } else {
      assert h[1..] == g[1..];
      CountRowUpdate(g[0], c, x);
    }
  }

}
