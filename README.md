# Connect 4 engine: a verified Dafny model

This project models the game rules and the AI of `Connect4Game`, a Connect 4
game with a tkinter front end (`main.py`). The board has 7 columns and 6 rows
and is stored as a list of rows, with row 0 at the top. A cell holds 0
(empty), 1 (red) or 2 (yellow). The model has five parts, one module each:

- `Boards` (boards.dfy): board values and the rules that only read or copy a board.
  These are legality (`is_valid_move`), the list of legal moves (`get_valid_moves`), fullness
  (`is_board_full`) and the gravity drop on a copy (`make_move_copy`). `Options`
  (options.dfy) holds the Option datatype.
- `Windows` (windows.dfy): the 69 runs of four cells, enumerated in the exact order of the
  source's four nested loop pairs. `check_winner_board` is modelled as the scan of that
  enumeration, which returns the piece of the first winning run.
- `Evaluation` (evaluation.dfy): `evaluate_window`, `evaluate_windows` (one method per loop
  pair), `evaluate_board` and `evaluate_board_for_ai`.
- `MoveOrder` (moveorder.dfy): `get_valid_moves_ordered`, a stable sort by distance from the
  centre column.
- `AlphaBeta` (search.dfy): `minimax` with alpha-beta pruning and `get_best_move`.
  - The recursive method `Minimax` is proved against `Search`, a plain minimax without
    pruning that uses the same move order.
  - In any open window the method's score is fail-soft against the true value: a score at or
    below alpha is an upper bound, one at or above beta is a lower bound, and one in between
    is exact.
  - With the full window (-inf, +inf) the method returns the unpruned score and column
    exactly.
  - The sentinels `-math.inf` and `math.inf` are the constructors `NegInf` and `PosInf` of a
    `Score` datatype; every real score is `Fin(n)`.
- `Game` (game.dfy): the class `Connect4Game`, whose fields are the game state. Its methods
  model `__init__`, `reset_game`, `is_valid_move`, `make_move` (with the row search and the
  logical effect of the drop animation), `check_winner`, `switch_player`, `start_game` and
  `calculate_suggestion`.

Boards are immutable values (`seq` of `seq`). So `make_move_copy` cannot change its input,
and the board field of the game object is reassigned as a whole.

Two points where the code differs from what its names suggest:
- The search goes through `get_valid_moves` in ascending column order. The centre-first
  order of `get_valid_moves_ordered` is modelled and proved, but nothing calls it.
- `get_best_move` always maximises for red (player 1) and scores leaves with
  `evaluate_board`, which is red's point of view, whatever `ai_player` is.

## Model

| member | source | states |
|---|---|---|
| Boards.ValidMoves | main.py:746-747 | a column is in the list exactly when it is legal (0..6 with an empty top cell); every entry is legal; the list is strictly ascending |
| Boards.ValidMovesAllOpen | main.py:746-747 | on a board whose top row is empty the list is every column 0..6 in order |
| Boards.ValidMovesCount | main.py:746-747 | the number of legal moves plus the number of full columns is 7 |
| Boards.BoardFullIffNoMoves | main.py:790-791 | `is_board_full` holds exactly when `get_valid_moves` is empty |
| Boards.LowestEmptyFrom | main.py:751-754 | the bottom-up row scan finds an empty cell with every cell below it occupied, or finds nothing only when every cell it passes is occupied |
| Boards.MakeMoveCopy | main.py:749-757 | the loop's result is the board `Drop` describes (the input is a value and cannot change) |
| Boards.DropIntoOpenColumn | main.py:749-757 | with an empty top cell, exactly one cell changes: the bottom-most empty cell of the column now holds the player; gravity is kept; the piece count rises by one |
| Boards.DropIntoFullColumn | main.py:751-757 | under gravity, a column with an occupied top cell has no empty cell and the copy equals the input |
| Windows.InBoundsIffBlock | main.py:760-786 | a run of four lies on the board exactly when its start cell is in the ranges of the loop pair for its direction (6x4, 3x7, 3x4 and 3x4 start cells) |
| Windows.Rank | main.py:760-786 | each run lies at a scan position between 0 and 68 |
| Windows.RankInjective | main.py:760-786 | different runs lie at different positions |
| Windows.WindowAt | main.py:760-786 | every position 0..68 holds a run, so the scan has exactly 69 runs |
| Windows.Next | main.py:760-786 | the next run in loop order is at the next position, and there is none after position 68 |
| Windows.FirstRun | main.py:759-788 | a piece found by the scan is never 0 |
| Windows.FirstRunNone | main.py:759-788 | the scan from a run on finds nothing exactly when no later run is a win |
| Windows.FirstRunIsFirst | main.py:759-788 | the piece found is that of a winning run, and every run the scan passes before it is no win |
| Windows.WinnerOf | main.py:759-788 | `check_winner_board` returns 1, 2 or None |
| Windows.WinnerIffRun | main.py:759-788 | `check_winner_board` returns a piece exactly when some run of four equal non-empty cells exists |
| Windows.WinnerSwap | main.py:759-788 | exchanging the labels 1 and 2 on the board exchanges the winner |
| Evaluation.EvaluateWindowValues | main.py:726-744 | a run is worth 100, 10, 2, 0 or -80, and -80 exactly when the opponent has three pieces and one cell is empty |
| Evaluation.EvaluateWindowSwap | main.py:726-744 | a run scores for one player what its colour-swapped copy scores for the other |
| Evaluation.HorizontalScore | main.py:704-707 | the loop pair over horizontal runs adds up the score of every run in the block it visits |
| Evaluation.VerticalScore | main.py:709-712 | the same for the vertical runs |
| Evaluation.DownRightScore | main.py:714-717 | the same for the runs going down to the right |
| Evaluation.DownLeftScore | main.py:719-722 | the same for the runs going down to the left, starting in columns 3..6 |
| Evaluation.EvaluateWindows | main.py:701-724 | the result is the total over the four directions |
| Evaluation.DirScoreScan | main.py:701-724 | from any run on, a direction's sum is the part of the winner-scan order that belongs to its block |
| Evaluation.WindowsScoreIsScan | main.py:701-724 | `evaluate_windows` scores exactly the 69 runs, each once, in the order `check_winner_board` visits them |
| Evaluation.CenterOpponent | main.py:691-695 | the centre-column bonus of one player is the negation of the other's |
| Evaluation.CenterSwap | main.py:691-695 | the centre bonus on the colour-swapped board is the opponent's bonus on the original |
| Evaluation.WindowsScoreSwap | main.py:701-724 | a player's window total on the swapped board is the opponent's total on the original |
| Evaluation.EvaluateBoard | main.py:687-699 | the loop computes red's centre bonus plus red's window total minus yellow's |
| Evaluation.BoardScoreSwap | main.py:687-699 | `evaluate_board` on the label-swapped board is the negation of `evaluate_board` |
| Evaluation.AiScoreIsBoardScore | main.py:664-676 | seen from red the AI evaluation is `evaluate_board`; seen from yellow it is its negation |
| Evaluation.EvaluateBoardForAi | main.py:664-676 | the loop computes the AI evaluation, which is `evaluate_board` for `ai_player` 1 and its negation for 2 |
| MoveOrder.InsertByKeyPermutes | main.py:678-685 | one insertion step of the stable sort adds the column and loses none |
| MoveOrder.SortByKeyPermutes | main.py:678-685 | sorting rearranges the columns without adding or losing any |
| MoveOrder.InsertOrdered | main.py:678-685 | inserting a column smaller than all others into a centre-first list keeps it centre-first, with ties ascending |
| MoveOrder.SortOrdered | main.py:678-685 | sorting an ascending list orders it by distance from the centre, with ties in ascending order (stability) |
| MoveOrder.OrderedMovesSpec | main.py:678-685 | the ordered moves are a permutation of `get_valid_moves`, hold exactly the legal columns, are non-decreasing in distance from column 3, and keep ties ascending |
| MoveOrder.SortAllColumns | main.py:678-685 | sorting the seven columns yields 3, 2, 4, 1, 5, 0, 6 |
| MoveOrder.OrderedMovesEmpty | main.py:678-685 | on the empty board the ordered moves are [3, 2, 4, 1, 5, 0, 6] |
| AlphaBeta.Max | main.py:642 | Python's `max(alpha, eval_score)` is an upper bound of both and one of them |
| AlphaBeta.Min | main.py:658 | Python's `min(beta, eval_score)` is a lower bound of both and one of them |
| AlphaBeta.SearchValue | main.py:619-662 | plain minimax always yields an integer, and away from a leaf a legal column |
| AlphaBeta.ScanValue | main.py:632-662 | the unpruned move loop never ends worse than its starting best, keeps an integer once it has one, and picks a legal column once it has tried one |
| AlphaBeta.MaxStep | main.py:636-646 | one column of the maximising loop keeps the pruned and true best values related, or cuts off with a score that bounds the true value from below; the full window never cuts off and updates both bests together |
| AlphaBeta.MinStep | main.py:652-662 | the mirror image for the minimising loop |
| AlphaBeta.CutOff | main.py:642-644 | a score returned on `beta <= alpha` that bounds the true value from the right side is fail-soft |
| AlphaBeta.MaxColumn | main.py:634-646 | one iteration of the maximising loop keeps the loop invariant or ends it with the loop's promised result |
| AlphaBeta.MinColumn | main.py:650-662 | one iteration of the minimising loop keeps the loop invariant or ends it with the loop's promised result |
| AlphaBeta.LoopDone | main.py:634-646 | a loop that tried every column without a cut-off delivers its promised result |
| AlphaBeta.Minimax | main.py:619-662 | red wins give (1000 + depth, None), yellow wins (-1000 - depth, None), a full board or depth 0 gives (`evaluate_board`, None); otherwise the column is legal; the score is fail-soft against plain minimax in any open window and, with the full window, score and column equal plain minimax; the recursion ends because depth decreases |
| AlphaBeta.MaxLoop | main.py:632-646 | the maximising loop yields an integer score and a legal column, fail-soft against the unpruned loop, and equal to it with the full window |
| AlphaBeta.MinLoop | main.py:648-662 | the same for the minimising loop |
| AlphaBeta.MaxChild | main.py:635-636 | red's drop followed by the minimising search gives an integer that is fail-soft against the child's true value |
| AlphaBeta.MinChild | main.py:651-652 | yellow's drop followed by the maximising search gives an integer that is fail-soft against the child's true value |
| AlphaBeta.GetBestMove | main.py:615-617 | the column is the one plain depth-6 minimax picks for red; it is a legal move unless the position is already decided, full or a leaf, and then it is None |
| Game.Connect4Game.constructor | main.py:31-38 | a new game has an empty board, red to move, no outcome, no suggestion, no AI colour, and is not started |
| Game.Connect4Game.ResetGame | main.py:580-588 | every field is back at its initial value |
| Game.Connect4Game.IsValidMove | main.py:418-419 | a column is valid exactly when it is in `get_valid_moves`, so it is in 0..6 |
| Game.Connect4Game.CheckWinner | main.py:492-531 | a winning run ends the game with the same piece `check_winner_board` returns; otherwise a full top row ends it as a draw (winner 0); otherwise the outcome fields are unchanged; nothing else changes |
| Game.Connect4Game.CalculateSuggestion | main.py:597-613 | on the AI's turn of a started, unfinished game the suggestion is `get_best_move`; otherwise None |
| Game.Connect4Game.SwitchPlayer | main.py:533-543 | once the game is over nothing changes; otherwise the other player moves and the suggestion is recomputed for them |
| Game.Connect4Game.StartGame | main.py:135-141 | the AI colour is recorded, the game is started, and the suggestion is computed at once if the AI is to move |
| Game.Connect4Game.MakeMove | main.py:421-461 | an illegal column returns false and changes nothing; otherwise the piece lands in the lowest empty cell (one piece more); then the winner check runs; if the game is now over the player and the suggestion keep their old values, otherwise the other player moves with a freshly computed suggestion; the result is true; gravity and "over exactly when an outcome is recorded" are kept |

## Left out

- The tkinter user interface is not modelled: drawing, hover effects, labels, the colour-choice
  frame, the game-over message box and `update_display`. These are UI with no logical content.
- `animate_piece_drop` and `animate_suggestion_arrow` are not modelled as animations; they are
  float physics driven by timer callbacks. `MakeMove` applies the logical effect of a finished
  drop at once: `animating` is set, the piece is written, then `check_winner`, then
  `switch_player`, and `animating` is cleared.
- The pixel-to-column conversion and the guard in `on_click` are not modelled; they are GUI
  event plumbing. `MakeMove` takes the column as an argument.
- Game.Connect4Game.CheckWinner: the source's four loop pairs are modelled as one loop over the
  same 69 runs in the same order via `Next`, not as four nested loop pairs.
- `math.inf` is not a float here. It is the `NegInf`/`PosInf` constructors of `Score`, ordered
  below and above every integer score.
- AlphaBeta.Minimax: `depth` is a natural number. The source's callers only ever pass 6 and
  smaller values, so negative depths are not modelled.
- AlphaBeta.GetBestMove: the model does not compute the concrete depth-6 value of any position.
  It states the column in terms of plain minimax.
- The search's choice does not depend on `ai_player`. The source maximises for red whatever the
  AI colour is, and the model keeps that.
- AlphaBeta.GetBestMove: the search depth is fixed at 6. The source's `depth` parameter defaults to 6, and its only caller uses that default.
