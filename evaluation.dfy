/**
 * The static evaluation of `Connect4Game` (main.py): `evaluate_window`
 * scores one run of four for a player, `evaluate_windows` adds that score up
 * over all 69 runs, and `evaluate_board` / `evaluate_board_for_ai` combine
 * both players' totals with a bonus for pieces in the centre column.
 */
module Evaluation {
  import opened Options
  import opened Boards
  import opened Windows

  /** `window.count(x)`. */
  function Count(s: Line, x: int): nat {
    (if s.c0 == x then 1 else 0) + (if s.c1 == x then 1 else 0) +
    (if s.c2 == x then 1 else 0) + (if s.c3 == x then 1 else 0)
  }

  /**
   * `evaluate_window`: +100 for four of the player's pieces, +10 for three and
   * an empty cell, +2 for two and two empty cells, and -80 when the opponent
   * has three and an empty cell. On a run of four at most one of these applies.
   */
  function EvaluateWindow(w: Line, p: Player): int
  {
    var playerCount := Count(w, p);
    var emptyCount := Count(w, 0);
    var opponentCount := Count(w, Opponent(p));
    (if playerCount == 4 then 100
     else if playerCount == 3 && emptyCount == 1 then 10
     else if playerCount == 2 && emptyCount == 2 then 2
     else 0)
    + (if opponentCount == 3 && emptyCount == 1 then -80 else 0)
  }

  /**
   * On a run of four at most one of the player's bonuses and the opponent's
   * penalty can apply, so a run is worth one of five values; the penalty
   * applies exactly when the opponent has three pieces and one cell is empty.
   */
  lemma EvaluateWindowValues(w: Line, p: Player)
    ensures EvaluateWindow(w, p) in {100, 10, 2, 0, -80}
    ensures EvaluateWindow(w, p) == -80 <==> Count(w, Opponent(p)) == 3 && Count(w, 0) == 1
  {
  }

  /** A run scores for one player what its colour-swapped copy scores for the other. */
  lemma EvaluateWindowSwap(w: Line, p: Player)
    ensures EvaluateWindow(SwapLine(w), Opponent(p)) == EvaluateWindow(w, p)
  {
  }

  /**
   * The score of the runs of direction `d` that the source's loop pair for
   * `d` visits from the one that starts at (`row`, `col`) on: the rest of row
   * `row`, left to right, then the later rows. (The board in the measure
   * keeps the verifier from unfolding the whole sum when the position is a
   * literal.)
   */
  function DirScore(b: Board, p: Player, d: Dir, row: int, col: int): int
    requires 0 <= row <= Height(d) && StartCol(d) <= col <= StartCol(d) + Width(d)
    decreases Height(d) - row, StartCol(d) + Width(d) - col, b
  {
    if row == Height(d) then 0
    else if col == StartCol(d) + Width(d) then DirScore(b, p, d, row + 1, StartCol(d))
    else EvaluateWindow(Cells(b, Window(d, row, col)), p) + DirScore(b, p, d, row, col + 1)
  }

  /** The score of all runs of direction `d`. */
  function BlockScore(b: Board, p: Player, d: Dir): int {
    DirScore(b, p, d, 0, StartCol(d))
  }

  /**
   * The value `evaluate_windows` computes: the score of all 69 runs,
   * horizontal, vertical, down-right and down-left, in that order.
   */
  function WindowsScore(b: Board, p: Player): int
  {
    BlockScore(b, p, Horizontal) + BlockScore(b, p, Vertical) +
    BlockScore(b, p, DownRight) + BlockScore(b, p, DownLeft)
  }

  /** The loop pair of `evaluate_windows` over the horizontal runs: rows 0 to 5, start columns 0 to 3. */
  method HorizontalScore(b: Board, p: Player) returns (score: int)
    ensures score == BlockScore(b, p, Horizontal)
  {
    score := 0;
    for row := 0 to 6
      invariant score + DirScore(b, p, Horizontal, row, 0) == DirScore(b, p, Horizontal, 0, 0)
    {
      for col := 0 to 4
        invariant score + DirScore(b, p, Horizontal, row, col) == DirScore(b, p, Horizontal, 0, 0)
      {
        var window := Cells(b, Window(Horizontal, row, col));
        score := score + EvaluateWindow(window, p);
      }
    }
  }

  /** The loop pair of `evaluate_windows` over the vertical runs: start rows 0 to 2, columns 0 to 6. */
  method VerticalScore(b: Board, p: Player) returns (score: int)
    ensures score == BlockScore(b, p, Vertical)
  {
    score := 0;
    for row := 0 to 3
      invariant score + DirScore(b, p, Vertical, row, 0) == DirScore(b, p, Vertical, 0, 0)
    {
      for col := 0 to 7
        invariant score + DirScore(b, p, Vertical, row, col) == DirScore(b, p, Vertical, 0, 0)
      {
        var window := Cells(b, Window(Vertical, row, col));
        score := score + EvaluateWindow(window, p);
      }
    }
  }

  /** The loop pair of `evaluate_windows` over the down-right runs: start rows 0 to 2, start columns 0 to 3. */
  method DownRightScore(b: Board, p: Player) returns (score: int)
    ensures score == BlockScore(b, p, DownRight)
  {
    score := 0;
    for row := 0 to 3
      invariant score + DirScore(b, p, DownRight, row, 0) == DirScore(b, p, DownRight, 0, 0)
    {
      for col := 0 to 4
        invariant score + DirScore(b, p, DownRight, row, col) == DirScore(b, p, DownRight, 0, 0)
      {
        var window := Cells(b, Window(DownRight, row, col));
        score := score + EvaluateWindow(window, p);
      }
    }
  }

  /** The loop pair of `evaluate_windows` over the down-left runs: start rows 0 to 2, start columns 3 to 6. */
  method DownLeftScore(b: Board, p: Player) returns (score: int)
    ensures score == BlockScore(b, p, DownLeft)
  {
    score := 0;
    for row := 0 to 3
      invariant score + DirScore(b, p, DownLeft, row, 3) == DirScore(b, p, DownLeft, 0, 3)
    {
      for col := 3 to 7
        invariant score + DirScore(b, p, DownLeft, row, col) == DirScore(b, p, DownLeft, 0, 3)
      {
        var window := Cells(b, Window(DownLeft, row, col));
        score := score + EvaluateWindow(window, p);
      }
    }
  }

  /**
   * `evaluate_windows`: the total over the four loop pairs, one per
   * direction, each of which adds up the score of every run it visits.
   */
  method EvaluateWindows(b: Board, p: Player) returns (score: int)
    ensures score == WindowsScore(b, p)
  {
    var horizontal := HorizontalScore(b, p);
    var vertical := VerticalScore(b, p);
    var downRight := DownRightScore(b, p);
    var downLeft := DownLeftScore(b, p);
    score := horizontal + vertical + downRight + downLeft;
  }

  /**
   * The total of the runs the scan of `check_winner_board` visits from `w`
   * on, in its order, each scored for `p`.
   */
  function ScanScore(b: Board, p: Player, w: Window): int
    requires InBounds(w)
    decreases WindowCount - Rank(w), b
  {
    EvaluateWindow(Cells(b, w), p) +
    match Next(w)
    case None => 0
    case Some(v) => ScanScore(b, p, v)
  }

  /** The total of the runs the scan visits after those of direction `d`. */
  function AfterScore(b: Board, p: Player, d: Dir): int {
    match d
    case Horizontal => ScanScore(b, p, Window(Vertical, 0, 0))
    case Vertical => ScanScore(b, p, Window(DownRight, 0, 0))
    case DownRight => ScanScore(b, p, Window(DownLeft, 0, 3))
    case DownLeft => 0
  }

  /** Inside the block of its direction the scan moves to the next start cell. */
  lemma ScanStep(b: Board, p: Player, w: Window, v: Window)
    requires InBounds(w) && InBounds(v) && Next(w) == Some(v)
    ensures ScanScore(b, p, w) == EvaluateWindow(Cells(b, w), p) + ScanScore(b, p, v)
  {
  }

  /** After the last run of a direction the scan goes on with the runs of the next one. */
  lemma ScanLast(b: Board, p: Player, w: Window)
    requires InBounds(w) && w.row + 1 == Height(w.dir) && w.col + 1 == StartCol(w.dir) + Width(w.dir)
    ensures ScanScore(b, p, w) == EvaluateWindow(Cells(b, w), p) + AfterScore(b, p, w.dir)
  {
  }

  /**
   * From the run at (`row`, `col`) on, `DirScore` adds up the runs of
   * direction `d` that the scan visits before it leaves the block of `d`.
   */
  lemma {:induction false} DirScoreScan(b: Board, p: Player, d: Dir, row: int, col: int)
    requires InBounds(Window(d, row, col)) && StartCol(d) <= col
    decreases Height(d) - row, StartCol(d) + Width(d) - col
    ensures DirScore(b, p, d, row, col) + AfterScore(b, p, d) == ScanScore(b, p, Window(d, row, col))
  {
    var w := Window(d, row, col);
    assert DirScore(b, p, d, row, col) == EvaluateWindow(Cells(b, w), p) + DirScore(b, p, d, row, col + 1);
    if col + 1 < StartCol(d) + Width(d) {
      DirScoreScan(b, p, d, row, col + 1);
      ScanStep(b, p, w, Window(d, row, col + 1));
    } else if row + 1 < Height(d) {
      assert DirScore(b, p, d, row, col + 1) == DirScore(b, p, d, row + 1, StartCol(d));
      DirScoreScan(b, p, d, row + 1, StartCol(d));
      ScanStep(b, p, w, Window(d, row + 1, StartCol(d)));
    } else {
      assert DirScore(b, p, d, row, col + 1) == DirScore(b, p, d, row + 1, StartCol(d)) == 0;
      ScanLast(b, p, w);
    }
  }

  /**
   * `evaluate_windows` scores exactly the 69 runs of four, each once, in the
   * order `check_winner_board` scans them: 24 horizontal, 21 vertical and 12
   * in each diagonal direction.
   */
  lemma WindowsScoreIsScan(b: Board, p: Player)
    ensures WindowsScore(b, p) == ScanScore(b, p, FirstWindow)
  {
    DirScoreScan(b, p, Horizontal, 0, 0);
    DirScoreScan(b, p, Vertical, 0, 0);
    DirScoreScan(b, p, DownRight, 0, 0);
    DirScoreScan(b, p, DownLeft, 0, 3);
  }

  /** +6 for a piece of `p`, -6 for a piece of its opponent, in the centre column. */
  function CenterCell(x: Cell, p: Player): int {
    if x == p then 6 else if x == Opponent(p) then -6 else 0
  }

  /** The centre-column bonus for `p` over rows 0, ..., `n` - 1. */
  function CenterUpTo(b: Board, p: Player, n: nat): int
    requires n <= 6
    decreases n, b
  {
    if n == 0 then 0 else CenterUpTo(b, p, n - 1) + CenterCell(b[n - 1][3], p)
  }

  /** The centre bonus of one player is the negation of the other's. */
  lemma {:induction false} CenterOpponent(b: Board, p: Player, n: nat)
    requires n <= 6
    ensures CenterUpTo(b, Opponent(p), n) == -CenterUpTo(b, p, n)
  {
    if n > 0 {
      CenterOpponent(b, p, n - 1);
    }
  }

  lemma {:induction false} CenterSwap(b: Board, p: Player, n: nat)
    requires n <= 6
    ensures CenterUpTo(SwapBoard(b), p, n) == CenterUpTo(b, Opponent(p), n)
  {
    if n > 0 {
      CenterSwap(b, p, n - 1);
    }
  }

  /** One step of the sum: the run at (`row`, `col`) of the swapped board scores as on the original for the opponent. */
  lemma DirScoreSwapStep(b: Board, p: Player, d: Dir, row: int, col: int)
    requires 0 <= row < Height(d) && StartCol(d) <= col < StartCol(d) + Width(d)
    requires DirScore(SwapBoard(b), p, d, row, col + 1) == DirScore(b, Opponent(p), d, row, col + 1)
    ensures DirScore(SwapBoard(b), p, d, row, col) == DirScore(b, Opponent(p), d, row, col)
  {
    var w := Window(d, row, col);
    CellsSwap(b, w);
    EvaluateWindowSwap(Cells(b, w), Opponent(p));
  }

  lemma {:induction false} DirScoreSwap(b: Board, p: Player, d: Dir, row: int, col: int)
    requires 0 <= row <= Height(d) && StartCol(d) <= col <= StartCol(d) + Width(d)
    decreases Height(d) - row, StartCol(d) + Width(d) - col
    ensures DirScore(SwapBoard(b), p, d, row, col) == DirScore(b, Opponent(p), d, row, col)
  {
    if row == Height(d) {
    } else if col == StartCol(d) + Width(d) {
      DirScoreSwap(b, p, d, row + 1, StartCol(d));
    } else {
      DirScoreSwap(b, p, d, row, col + 1);
      DirScoreSwapStep(b, p, d, row, col);
    }
  }

  /** What one player's runs score on the swapped board is what the other's score on the original. */
  lemma WindowsScoreSwap(b: Board, p: Player)
    ensures WindowsScore(SwapBoard(b), p) == WindowsScore(b, Opponent(p))
  {
    DirScoreSwap(b, p, Horizontal, 0, 0);
    DirScoreSwap(b, p, Vertical, 0, 0);
    DirScoreSwap(b, p, DownRight, 0, 0);
    DirScoreSwap(b, p, DownLeft, 0, 3);
  }

  /** The value `evaluate_board` computes: player 1's view of the position. */
  function BoardScore(b: Board): int {
    CenterUpTo(b, 1, 6) + WindowsScore(b, 1) - WindowsScore(b, 2)
  }

  /** `evaluate_board`: the centre bonus for red, plus red's windows, minus yellow's. */
  method EvaluateBoard(b: Board) returns (score: int)
    ensures score == BoardScore(b)
  {
    score := 0;
    for row := 0 to 6
      invariant score == CenterUpTo(b, 1, row)
    {
      if b[row][3] == 1 {
        score := score + 6;
      } else if b[row][3] == 2 {
        score := score - 6;
      }
    }
    var red := EvaluateWindows(b, 1);
    var yellow := EvaluateWindows(b, 2);
    score := score + (red - yellow);
  }

  /** Exchanging red and yellow negates the evaluation: it is antisymmetric. */
  lemma BoardScoreSwap(b: Board)
    ensures BoardScore(SwapBoard(b)) == -BoardScore(b)
  {
    CenterSwap(b, 1, 6);
    CenterOpponent(b, 1, 6);
    WindowsScoreSwap(b, 1);
    WindowsScoreSwap(b, 2);
  }

  /** The evaluation from the side of `ai`: its centre bonus, plus its runs, minus its opponent's. */
  function AiScore(b: Board, ai: Player): int {
    CenterUpTo(b, ai, 6) + WindowsScore(b, ai) - WindowsScore(b, Opponent(ai))
  }

  /** Seen from red the evaluation is `evaluate_board`; seen from yellow, its negation. */
  lemma AiScoreIsBoardScore(b: Board, ai: Player)
    ensures AiScore(b, ai) == if ai == 1 then BoardScore(b) else -BoardScore(b)
  {
    CenterOpponent(b, 1, 6);
  }

  /**
   * `evaluate_board_for_ai`: the evaluation from the side of `ai` (the field
   * `ai_player`), which is `evaluate_board` for red and its negation for yellow.
   */
  method EvaluateBoardForAi(b: Board, ai: Player) returns (score: int)
    ensures score == AiScore(b, ai)
    ensures score == if ai == 1 then BoardScore(b) else -BoardScore(b)
  {
    var aiScore := EvaluateWindows(b, ai);
    var opponentScore := EvaluateWindows(b, Opponent(ai));
    var centerBonus := 0;
    for row := 0 to 6
      invariant centerBonus == CenterUpTo(b, ai, row)
    {
      if b[row][3] == ai {
        centerBonus := centerBonus + 6;
      } else if b[row][3] == Opponent(ai) {
        centerBonus := centerBonus - 6;
      }
    }
    score := aiScore - opponentScore + centerBonus;
    AiScoreIsBoardScore(b, ai);
  }
}
