# CyberChess rules and game-state engine in Dafny

A verified model of the rules and state engine of the `CyberChess` React
component (`src/CyberChess.jsx`). CyberChess is a teaching chess variant. A
human plays White by clicking squares. The computer plays Black with a
one-ply greedy heuristic. The rules are relaxed on purpose: a pawn may also
step one square backward, and there is no check, castling, en passant or
promotion.

The model has six modules, one file each:

- `pieces.dfy` (`Pieces`): the data model. The source writes a piece as one
  letter whose case gives its colour (`isWhite`). Here a piece is
  `Piece(kind, colour)` and a square is an optional piece. `Board` is an 8×8
  `seq<seq<Cell>>` value, because `executeMove` copies the board before it
  changes two squares. `InitialBoard` is the starting position.
- `rules.dfy` (`Rules`): `isPathClear` becomes the loop method `IsPathClear`,
  proved against the predicate `PathClear`. `PathClear` says that every
  square strictly between the two ends is empty. `isValidMove` becomes the
  function `ValidMove`, plus the method `IsValidMove`, which runs the
  per-piece switch and calls the path walk.
- `movegen.dfy` (`MoveGen`): `getAllValidMoves` becomes `GetAllValidMoves`,
  with the source's four nested loops. Its contract says which moves it
  returns and in what order.
- `scoring.dfy` (`Scoring`): `evaluateMove` becomes `EvaluateMove`. The
  random jitter is a parameter.
- `computer.dfy` (`Computer`): the scan in `makeComputerMove` that keeps the
  first strictly-best move becomes `SelectBestMove`.
- `game.dfy` (`Game`): the component's `useState` cells become the fields of
  class `GameState`. `executeMove`, `makeComputerMove`, `handleSquareClick`
  and `resetGame` become its methods. Each method is proved equal to a pure
  transition function on a `Snapshot` of the state (`AfterMove`,
  `AfterNoMove`, `AfterClick`, `Initial`). The properties are lemmas about
  those functions. `Consistent` is the state machine's invariant: a winner
  exists exactly when the game is over, and a selection exists only on
  White's turn, in a running game, on a White piece. The constructor,
  `ResetGame`, `HandleSquareClick` and `MakeComputerMove` keep it.
  `ExecuteMove` keeps it only when no selection is pending
  (`MoveKeepsConsistent`); `HandleSquareClick` clears the selection right
  after the move it plays.

Two facts about the code worth stating:

- `executeMove` trusts its callers and performs no legality test;
  `handleSquareClick` only calls it for a legal target and plays no move on
  any other click.
- The Bishop rule does not exclude a zero-length move; the rule against
  capturing your own colour excludes `from == to` whenever the piece stands
  on `from` (`Rules.NoNullMove`).

## Model

| member | source | states |
|---|---|---|
| `Pieces.Put` | src/CyberChess.jsx:251-252 | writing one square of the copied board sets that square and leaves every other square as it was |
| `Pieces.OneKingEachAtStart` | src/CyberChess.jsx:68-77 | the initial board holds exactly one King of each colour, on column 4 of that colour's back rank |
| `Rules.Between` | src/CyberChess.jsx:93-102 | the k-th square of the walk is neither end; it shares the walk's rank or file with both ends when the walk is straight, and its diagonal when the walk is diagonal; it is k steps from `from` and the rest of the distance from `to` |
| `Rules.IsPathClear` | src/CyberChess.jsx:90-105 | the walk answers true exactly when every square strictly between the ends is empty, and false exactly when some such square is occupied; its only precondition is that the ends share a rank, file or diagonal, which every caller checks first |
| `Rules.ValidMove` | src/CyberChess.jsx:107-178 | a legal move never targets a square of the mover's colour, so a piece standing on `from` can never legally move to `from` |
| `Rules.IsValidMove` | src/CyberChess.jsx:107-178 | the switch as run, with the path walk for Rook, Bishop and Queen, decides exactly `ValidMove` |
| `Rules.NoNullMove` | src/CyberChess.jsx:110-113 | no piece may move onto its own square |
| `Rules.PawnRules` | src/CyberChess.jsx:120-153 | a straight pawn move needs an empty target one step forward, one step backward, or two steps forward from the start row over an empty square; a diagonal move needs a column change of 1, one step forward and an enemy on the target; every other pawn target, sideways included, is illegal |
| `Rules.WhitePawnOnStartSquare` | src/CyberChess.jsx:120-153 | a White pawn on (6,4) may go to (5,4), (4,4) and (7,4) when they are empty, and never to (6,3) or (6,5) |
| `Rules.SlidingRules` | src/CyberChess.jsx:155-172 | a Rook, Bishop or Queen move is legal exactly when the target is not the mover's colour, lies on the piece's line (straight, diagonal, or either) and the path to it is clear |
| `Rules.QueenIsRookOrBishop` | src/CyberChess.jsx:155-172 | a Queen move is legal exactly when the same move is legal for a Rook or for a Bishop of its colour |
| `Rules.BlockedSlide` | src/CyberChess.jsx:99-100 | putting any piece on a square strictly between the ends of a legal sliding move makes the move illegal |
| `Rules.KnightJumps` | src/CyberChess.jsx:160-164 | a Knight move is legal exactly when (abs Δrow, abs Δcol) is (2,1) or (1,2) and the target is not the mover's colour; no other square matters |
| `Rules.KingRules` | src/CyberChess.jsx:173-174 | a King move is legal exactly when abs Δrow ≤ 1, abs Δcol ≤ 1 and the target is not the mover's colour |
| `MoveGen.GetAllValidMoves` | src/CyberChess.jsx:180-201 | the result contains exactly the moves (from, to, piece) where `from` holds `piece` of the given colour and the move is legal, ordered row-major by origin and then by destination |
| `MoveGen.ScanOrderDetermines` | src/CyberChess.jsx:180-201 | two scan-ordered lists with the same members are equal, so the generator's contract fixes its output |
| `MoveGen.GeneratedMovesMove` | src/CyberChess.jsx:185-193 | a generated move never stays on its square and never targets a square of its own colour |
| `Scoring.PieceValue` | src/CyberChess.jsx:208 | piece values lie between 1 and 100, and only the King is worth 100 |
| `Scoring.EvaluateMove` | src/CyberChess.jsx:203-226 | a score is non-negative; a capture scores at least 10 × the captured value and less than that plus 5; a non-capture scores under 5, and under 3 away from the centre |
| `Scoring.ScoreGapDecides` | src/CyberChess.jsx:203-226 | a deterministic score at least 3 higher wins whatever the two jitter draws |
| `Scoring.QueenCaptureBeatsQuietMove` | src/CyberChess.jsx:208-224 | a Queen capture outscores every non-capture to a non-centre square for every jitter |
| `Scoring.KingCaptureBeatsAllElse` | src/CyberChess.jsx:208-224 | a King capture outscores every move that does not capture a King |
| `Computer.SelectBestMove` | src/CyberChess.jsx:266-275 | the kept index has the highest score in the list, and every earlier move scores strictly less, because only a strictly greater score replaces the best |
| `Computer.ListBestIsBest` | src/CyberChess.jsx:258-275 | the move kept from the generated list is legal and is the best legal move: no legal move scores higher, and every legal move earlier in scan order scores less |
| `Computer.BestForUnique` | src/CyberChess.jsx:266-275 | at most one legal move is best, so ties are broken by scan order alone |
| `Computer.KingCaptureChosen` | src/CyberChess.jsx:257-278 | when Black can capture a King, the computer's move captures a King |
| `Game.MoveFrame` | src/CyberChess.jsx:228-253 | after a move, `to` holds the moved piece, `from` is empty, and every other square is unchanged |
| `Game.MoveRecordsCapture` | src/CyberChess.jsx:233-243 | a capture appends the captured kind to the mover's list only and becomes the last captured kind; a non-capture leaves both lists alone; the lists only grow |
| `Game.KingCaptureEndsGame` | src/CyberChess.jsx:245-248 | capturing a King sets game over with the mover as winner; any other move leaves game over and winner unchanged |
| `Game.MoveFlipsTurn` | src/CyberChess.jsx:254 | the side to move flips on every move, the winning move included |
| `Game.MoveKeepsConsistent` | src/CyberChess.jsx:228-255 | a move made with no selection pending keeps the invariant |
| `Game.ClickKeepsConsistent` | src/CyberChess.jsx:280-316 | every click keeps the invariant, so the selected square always holds a White piece when it is read |
| `Game.ClickIgnoredOutOfTurn` | src/CyberChess.jsx:281-282 | a click changes nothing once the game is over or while Black is to move |
| `Game.ClickSelectedDeselects` | src/CyberChess.jsx:288-292 | clicking the selected square clears the selection and changes nothing else |
| `Game.ClickMovesOnlyLegally` | src/CyberChess.jsx:294-299 | a click changes the board only by a legal move of the selected piece to the clicked square; the selection is then cleared and Black is to move |
| `Game.ClickOtherwiseSelects` | src/CyberChess.jsx:301-315 | a click that plays no move changes only the selection; it selects only White pieces, and a new selection is the clicked square |
| `Game.ClickLegalTargetMoves` | src/CyberChess.jsx:294-299 | with a piece selected, clicking a legal target plays exactly that move and clears the selection |
| `Game.ClickWhitePieceSelects` | src/CyberChess.jsx:301-306 | on White's turn, clicking a White piece other than the selected one makes it the selection and changes nothing else |
| `Game.ClickElsewhereKeepsState` | src/CyberChess.jsx:308-315 | a click that is neither the selected square, nor a White piece, nor a legal target changes nothing, so the selection is kept |
| `Game.OpeningDoubleStep` | src/CyberChess.jsx:128-140 | from the start, clicking (6,4) selects it, and clicking (4,4) then moves the pawn there and passes the turn to Black, who has a legal reply |
| `Game.OpeningScenario` | src/CyberChess.jsx:318-325 | after White's opening double step, the computer's reply is one legal Black move applied to the board, and White is to move again |
| `Game.GameState.constructor` | src/CyberChess.jsx:68-86 | the component starts in the initial state and satisfies the invariant |
| `Game.GameState.ResetGame` | src/CyberChess.jsx:327-336 | from any state: the initial board, White to move, empty capture lists, no last capture, game not over, no winner, no selection |
| `Game.GameState.ExecuteMove` | src/CyberChess.jsx:228-255 | the new state is `AfterMove` of the old one, about which the `Move…` lemmas above are proved |
| `Game.GameState.MakeComputerMove` | src/CyberChess.jsx:257-278 | with no legal Black move, White wins and nothing else changes; otherwise the move played is legal and best, and the new state is `AfterMove` of it; the invariant is kept |
| `Game.GameState.HandleSquareClick` | src/CyberChess.jsx:280-316 | the new state is `AfterClick` of the old one, about which the `Click…` lemmas above are proved; the invariant is kept |

## Left out

- Rendering: the JSX, Tailwind classes, `pieceIcons` and the lucide icons are presentation only (src/CyberChess.jsx:53-66, 338-551). So is all of src/App.jsx, which is the start screen and menu toggle.
- The vulnerability texts: `vulnerabilityInfo` and the card shown by `capturedInfo` are display strings. `lastCaptured` records only the last captured kind.
- The 800 ms `setTimeout` before the computer moves, and its cancellation when the turn or game-over flag changes, are event-loop scheduling. The computer's reply is an explicit call of `MakeComputerMove`. Its precondition (Black to move, game not over) is the effect's guard.
- `Math.random()` is a parameter, `jitter: Move -> real`, with draws in [0, 3). Each generated move is scored once and the moves are distinct, so one draw per move equals one draw per call.
- Floating point: scores are exact reals. The initial `bestScore` of `-Infinity` is `-1.0`, which is below every score.
- React state: setters, functional updates and render closures are modelled as one object updated in sequence.
- `isWhite` on an empty square is never called. The colour is a field of `Piece`. The switch's `default` branch cannot be reached, because every kind is covered.
- Game.GameState.ExecuteMove: requires a piece on `from`. Both callers pass the square of the piece being moved. The source never calls it with `from == to`; if it were, the model would do what the code does and empty the square.
- Game.GameState.HandleSquareClick: requires the invariant `Consistent`. Every state the component reaches satisfies it. It is what makes the selected square non-empty.
- Click coordinates have the type `Coord` (0..7), because the board only emits clicks on its 64 squares.
- When White has no legal move, the component has no rule for it, and the game waits for a click that cannot move. The model has no rule for it either.
