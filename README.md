# Shape-merging board game: verified model of the rules

This project models the rules core of a browser game played on an 8×8 board by red and black pieces of four tiers: Triangle, Square, Hexagon and Octagon.

- Each tier has a list of slide directions and a step limit.
- A slide stops at the first occupied cell.
- An enemy piece there may be captured, as the combat rule decides.
- A friendly piece of the same shape is merged with the mover into the next tier.

The source holds two rule sets:

- the modular one: `Constants.js`, `Piece.js`, `AI.js` and `Game.js`;
- an older self-contained one: `script.js`.

The modular rule set has these modules:

- **Constants**: the board size and the eight compass directions with their vectors.
- **Grid**: the board as a sequence of rows, updated one cell at a time, plus a piece count.
- **Pieces** (`Piece.js`):
  - step limits, corner counts, front and move directions;
  - the combat rule `canCapture` and the merge rule `mergeWith`;
  - the slide generator `calculatePieceMoves`.
- **AI** (`AI.js`): `getAIMove`.
- **Game** (`Game.js`):
  - the game state (board, selection, highlighted moves, player to move) as a class;
  - the click handler `selectPiece`;
  - the reset handler.

**Legacy** (`script.js`) is the older rule set. It has its own piece classes, its own move generator and eating rules, a starting board and a click handler without turns.

The two loop-based generators are methods whose loops are proved equal to recursive specification functions:

- `calculatePieceMoves` and the four `calculateMoves` are proved equal to `SlideMoves`/`Ray`.
- `getAIMove` is proved equal to `ColorPieces`/`Flatten`.

Each of those specification functions is in turn characterised by an exactness lemma, in both directions:

- A move is produced iff it lies on one of the piece's directions at 1..steps, over empty cells, and its kind fits the target cell.
- A piece is collected iff it stands on the board in the computer's colour.

Modelling choices:

- The game's mutable board is a field holding a value of type `seq<seq<Option<Piece>>>`. The click handlers reassign it cell by cell.
- `Math.random()` is a parameter `random` with 0 ≤ random < 1.
- Step limits differ between the two rule sets. In `Piece.js` they are 2/3/5/7, passed as the constructors' third argument. In `script.js` they are 3/4/6/8, set as `this.steps`.
- Triangle directions differ between the two rule sets. In `Piece.js`, red Triangles move N, SW, SE and black Triangles move S, NW, NE. In `script.js`, red Triangles move S, NW, NE and black Triangles move N, SW, SE.

Where the code and its comments disagree, the model follows the code:

- **Hexagon versus Triangle.** The captures a Hexagon makes against a Triangle use the lists as coded (`Piece.js:226-232`): red {S, NW, NE}, black {N, SW, SE}. The comments there claim otherwise.

## Model

| member | source | states |
|---|---|---|
| Constants.Vector | Constants.js:5-14 | every direction is a unit step in each coordinate and is never the zero vector |
| Constants.DirectionsDistinct | Constants.js:5-14 | `Object.values(DIRECTIONS)` lists all eight directions once each, with pairwise distinct vectors |
| Constants.OppositesNegate | Constants.js:5-14 | S, W, SW, SE are the negations of N, E, NE, NW |
| Grid.Place | Game.js:67-85 | writing one cell changes that cell and no other, and keeps the board square |
| Grid.PlaceCount | Game.js:67-85 | writing one cell changes the piece count by what was removed and what was added |
| Pieces.TierTables | Piece.js:75-321 | step limits 2 < 3 < 5 < 7 and corners 3 < 4 < 6 < 8 rise with the tier |
| Pieces.WithoutEastWest | Piece.js:210-211 | the Hexagon's filter keeps exactly the listed directions other than E and W |
| Pieces.HexagonListContents | Piece.js:206-208 | both colour orders of the Hexagon's list name every direction except E and W |
| Pieces.MoveDirections | Piece.js:89-272 | red Triangle moves N/SW/SE, black S/NW/NE; Square moves orthogonally; Hexagon in every direction but E/W; Octagon in all eight |
| Pieces.MergeWith | Piece.js:97-320 | a merge happens iff the other piece has the same shape and colour, and yields the next tier in the mover's colour (two Octagons stay an Octagon) |
| Pieces.MergeSymmetric | Piece.js:97-320 | which piece moves onto which does not change the merge result |
| Pieces.CalculatePieceMoves | Piece.js:324-362 | the nested scan returns exactly `SlideMoves` of the given direction list, in order |
| Pieces.GetValidMoves | Piece.js:89-272 | getValidMoves returns `ValidMoves` for the piece's own direction list |
| Pieces.RaySound | Piece.js:328-358 | every move of one direction's scan is a legal slide at some distance in that direction |
| Pieces.RayComplete | Piece.js:328-358 | every legal slide in a direction, at any distance up to the step limit, is produced by that direction's scan |
| Pieces.SlideMovesExact | Piece.js:324-362 | a move is generated iff it lies on a listed direction at 1..steps over empty cells and fits its target: empty for plain moves, a capturable enemy for eats, a mergeable friend for merges |
| Pieces.ValidMovesSound | Piece.js:324-367 | valid moves are on the board and never the origin; plain moves go to empty cells; eats hit an enemy and never carry `both`; merges hit the same shape and colour and yield the next tier |
| Pieces.ValidMovesComplete | Piece.js:324-362 | no legal slide along the piece's own directions is missed |
| Pieces.ValidMovesOnBoard | Piece.js:332-335 | every valid move targets a cell on the board |
| Pieces.AlongMoves | Piece.js:328-330 | a step of positive length leaves the starting cell |
| Pieces.RayShape | Piece.js:328-358 | the j-th move of a scan is j steps further out, and every move but the last is a plain move: the scan never passes an occupied cell |
| Pieces.DirectionOf | Constants.js:5-14 | names the direction whose vector is given, or reports that none has it |
| Pieces.MatchesIff | Piece.js:58-313 | the `some(d => d.row === dir.row && d.col === dir.col)` test holds iff the attack vector names a listed direction |
| Pieces.AttackVectorNamed | Piece.js:27-31 | between two distinct cells the sign-normalised attack vector is one of the eight directions |
| Pieces.CanCaptureTable | Piece.js:22-314 | between opposite colours, capture succeeds iff the attack direction is in the attacker/defender table. Triangles capture from anywhere. A Hexagon or Octagon takes a Square only diagonally, and an Octagon takes a Hexagon only from W/E |
| Pieces.BaseNeverCapturesOwnColour | Piece.js:22-24 | the base rule refuses a target of the attacker's own colour |
| Pieces.TriangleCapturesAnyEnemy | Piece.js:22-50 | a Triangle (three corners) captures any enemy piece from any direction |
| Pieces.TablesIgnoreTargetColour | Piece.js:135-314 | the Square/Hexagon-versus-Triangle and Octagon rules never read the target's colour |
| Pieces.Steps | Piece.js:75-257 | no contract; the constructors' `steps`, defined by its body; characterised by `Pieces.TierTables` |
| Pieces.Corners | Piece.js:80-262 | no contract; getCorners, defined by its body; characterised by `Pieces.TierTables` |
| Pieces.FrontDirections | Piece.js:84-267 | no contract; getFrontDirections, defined by its body; characterised by `Pieces.CanCaptureTable` |
| Pieces.IsInBounds | Piece.js:365-367 | no contract; isInBounds, defined by its body; characterised by `Pieces.ValidMovesOnBoard` |
| Pieces.IsSideOrBackAttack | Piece.js:53-61 | no contract; defined by its body; characterised by `Pieces.CanCaptureTable` |
| Pieces.BaseCanCapture | Piece.js:22-50 | no contract; defined by its body; characterised by `Pieces.BaseNeverCapturesOwnColour`, `Pieces.TriangleCapturesAnyEnemy` and `Pieces.CanCaptureTable` |
| Pieces.CanCapture | Piece.js:22-314 | no contract; every class's canCapture, defined by its body; characterised by `Pieces.CanCaptureTable` and `Pieces.TablesIgnoreTargetColour` |
| AI.GetAIMove | AI.js:3-37 | returns null iff there is no candidate. Otherwise it returns candidate `floor(random * n)` of the row-major candidate list |
| AI.CollectPieces | AI.js:4-13 | the row-by-row scan collects exactly `ColorPieces`, in row-major order |
| AI.CollectCandidates | AI.js:15-27 | the second loop builds exactly the flattened, wrapped move lists of the collected pieces, in order |
| AI.PushCandidates | AI.js:19-26 | the inner loop appends one candidate per move, in the moves' order |
| AI.FlattenStep | AI.js:17-27 | handling one more piece appends exactly that piece's wrapped moves |
| AI.Pick | AI.js:35 | `Math.floor(random * n)` is a valid index for a non-empty list |
| AI.MoveLists | AI.js:17-18 | one move list per collected piece, each that piece's valid moves |
| AI.WrapAt | AI.js:19-26 | a wrapped candidate records its piece, its origin, an unchanged move and that move's target cell |
| AI.RowPiecesExact | AI.js:6-13 | the scan of one row collects exactly the cells of that row, up to the column reached, that hold a piece of the computer's colour |
| AI.ColorPiecesExact | AI.js:4-13 | aiPieces holds exactly the on-board cells with a piece of the computer's colour |
| AI.FlattenSound | AI.js:15-27 | every candidate comes from one listed piece and one of its moves, unchanged |
| AI.FlattenEmpty | AI.js:15-32 | the candidate list is empty iff every piece's move list is |
| AI.CandidateFacts | AI.js:3-27 | every candidate starts on a cell holding a piece of the computer's colour and carries one of its valid moves, targeting that move's cell |
| AI.NoCandidatesIff | AI.js:29-32 | getAIMove returns null exactly when no piece of the computer's colour has a valid move |
| Game.InitialBoard | Game.js:12-18 | the starting board is 8×8 |
| Game.InitialBoardLayout | Game.js:12-18 | black Triangles fill rows 0-1, red Triangles rows 6-7, rows 2-5 are empty |
| Game.FindMove | Game.js:65 | `find` returns a highlighted move on the clicked cell, or null iff none is on it |
| Game.FindMoveFirst | Game.js:65 | the move `find` returns is the first one on the clicked cell: no earlier move is on it |
| Game.ApplyMove | Game.js:67-85 | the result is an 8×8 board; its cell contents are characterised by `Game.ApplyValidMove` |
| Game.ApplyValidMove | Game.js:67-85 | playing a valid move empties the origin. The target holds the merged piece or the mover. No other cell changes. The piece count is kept by a plain move and drops by one on a merge or capture |
| Game.Game.constructor | Game.js:6-18 | the initial board, red to move, nothing selected |
| Game.Game.SelectPiece | Game.js:60-102 | a click with a selection plays the first highlighted move on that cell, if any, and passes the turn; the selection is then cleared. Without a selection, only a piece of the player to move is selected, and its valid moves are highlighted. `Valid()` is kept |
| Game.Game.ClickWithSelection | Game.js:63-93 | with a piece selected: the first highlighted move on the clicked cell, if any, is played and the turn passes. The selection and highlights are then cleared |
| Game.Game.ClickWithoutSelection | Game.js:94-99 | with nothing selected: a piece of the player to move is selected and its valid moves highlighted; the board and turn are unchanged |
| Game.Game.PlayMove | Game.js:67-88 | the target cell receives the merged piece, the mover, or nothing for `both`. The origin is emptied and the turn passes to the opponent |
| Game.Game.Reset | Game.js:105-118 | the initial board, red to move, nothing selected or highlighted |
| Game.RedCanMoveFirst | Game.js:9-18 | red, who starts, has a valid move on the starting board |
| Legacy.DirectionsAreUnitSteps | script.js:40-305 | every listed direction is a unit step, no list repeats one, Hexagons never move W/E, Octagons have eight |
| Legacy.Steps | script.js:36-289 | no contract; each constructor's `this.steps`, defined by its body; used as the scan bound in `Legacy.SlideMovesExact` |
| Legacy.Directions | script.js:40-305 | no contract; each class's direction list, defined by its body; characterised by `Legacy.DirectionsAreUnitSteps` |
| Legacy.TriangleCanEat | script.js:107-132 | no contract; Triangle.canEat, defined by its body; characterised by `Legacy.TriangleEatTable` |
| Legacy.SquareCanEat | script.js:200-222 | no contract; Square.canEat, defined by its body; characterised by `Legacy.SquareEatsAdjacentTriangles` |
| Legacy.OccupiedStep | script.js:72-87 | no contract; the occupied-cell branch of each calculateMoves, defined by its body; characterised by `Legacy.SlideMovesExact` and `Legacy.HexagonOctagonNeverEat` |
| Legacy.MergeWith | script.js:98-283 | a Triangle, Square or Hexagon merges iff the other piece has its shape and colour, giving a Square, Hexagon or Octagon of its colour |
| Legacy.TriangleEatTable | script.js:107-132 | a Triangle eats every Square, Hexagon and Octagon, whatever their colour, and eats a Triangle only from W, E, NW, NE or S |
| Legacy.CalculateMoves | script.js:63-329 | the scan returns exactly `SlideMoves` for the class's occupied-cell branch |
| Legacy.GetValidMoves | script.js:40-305 | getValidMoves returns `ValidMoves` for the class's own direction list |
| Legacy.RaySound | script.js:67-92 | every move of one direction's scan is a legal slide in that direction |
| Legacy.RayComplete | script.js:67-92 | every legal slide in a direction is produced by that direction's scan |
| Legacy.SlideMovesExact | script.js:63-329 | a move is generated iff it lies on a listed direction at 1..steps over empty cells and fits the class's rule for its target |
| Legacy.ValidMovesSound | script.js:63-329 | moves are on the board, never the origin. Plain moves go to empty cells. Only Triangles and Squares eat, always onto an occupied cell. Octagons never merge. A merge hits an identical piece and yields the next shape |
| Legacy.ValidMovesComplete | script.js:63-95 | no legal slide along the class's own directions is missed |
| Legacy.ValidMovesOnBoard | script.js:71-72 | every valid move targets a cell on the board |
| Legacy.AlongMoves | script.js:68-69 | a step of positive length leaves the starting cell |
| Legacy.HexagonOctagonNeverEat | script.js:245-329 | Hexagons and Octagons never eat, and Octagons only make plain moves |
| Legacy.SquareEatsAdjacentTriangles | script.js:174-222 | a Square eats only a Triangle of either colour, one cell away: red from N/W/E, black from S/W/E |
| Legacy.BlackTriangleNeverEatsTriangle | script.js:52-131 | a black Triangle's directions (N, SW, SE) are outside canEat's list, so it never eats a Triangle |
| Legacy.RedTriangleEatsAnyPieceSouth | script.js:81-132 | a red Triangle eats any non-Triangle directly south of it, even one of its own colour |
| Legacy.InitialBoard | script.js:338-344 | the starting board is 8×8 |
| Legacy.InitialBoardLayout | script.js:338-344 | red Triangles fill rows 0-1, black Triangles rows 6-7, rows 2-5 are empty |
| Legacy.FindMove | script.js:379 | `find` returns a highlighted move on the clicked cell, or null iff none is on it |
| Legacy.ApplyMove | script.js:381-390 | the result is an 8×8 board; its cell contents are characterised by `Legacy.ApplyValidMove` |
| Legacy.ApplyValidMove | script.js:381-391 | playing a valid move empties the origin. The target holds the merged piece or the mover. No other cell changes. The piece count drops by one on a merge or an eat |
| Legacy.LegacyGame.constructor | script.js:332-344 | the initial board with nothing selected or highlighted |
| Legacy.LegacyGame.SelectPiece | script.js:374-401 | as in the modular game, but any piece of either colour may be selected and there are no turns. A click on an empty cell with nothing selected leaves the highlights alone |
| Legacy.LegacyGame.Reset | script.js:410-414 | clears the selection only; the board and the highlighted moves are kept |

## Left out

- Rendering: `renderBoard`, the DOM event wiring, `handleTileClick`, `getSymbol`, `getClass` and `getImagePath` only display or route clicks.
- `Math.random()` is not modelled as a generator. The random number is a parameter.
- AI.Pick: the random number is an exact real, and the floating-point rounding of `random * n` is not modelled. With the double nearest 1/3 and n = 3, JavaScript rounds the product up to 1 and picks index 1, while the exact product is below 1 and `Pick` gives index 0.
- Object identity: pieces are values.
  - Octagon's `return this` is modelled as an Octagon of the mover's colour.
  - The Hexagon's `dir !== DIRECTIONS.W` filter compares shared direction objects; it is modelled as a comparison of directions.
- In-place mutation and aliasing of the nested board arrays: the board is a sequence value that the click handlers reassign cell by cell. A piece object shared between the board and `selectedPiece` is modelled as an equal value.
- `both` on capture moves: `canCapture` returns a boolean, so `combatResult === 'both'` is always false. The `both` branch of `selectPiece` is kept but is unreachable (`Pieces.ValidMovesSound` proves it).
- `isWeakSideAttack` and the base `canEat` of `script.js` are never called.
- `Legacy.MergeWith` requires a non-Octagon mover, because the Octagon class of `script.js` has no `mergeWith` and never reaches a merge.
