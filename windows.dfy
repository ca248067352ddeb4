/**
 * The 69 runs of four cells that both `check_winner_board` and
 * `evaluate_windows` (main.py) walk over, enumerated once in the order the
 * source's nested loops visit them: 24 horizontal runs (row by row, left to
 * right), 21 vertical runs, 12 runs going down to the right and 12 going
 * down to the left. Winner detection is the scan of that enumeration.
 */
module Windows {
  import opened Options
  import opened Boards

  datatype Dir = Horizontal | Vertical | DownRight | DownLeft

  /** A run of four cells that starts at (`row`, `col`) and steps in direction `dir`. */
  datatype Window = Window(dir: Dir, row: int, col: int)

  function RowStep(d: Dir): int {
    if d == Horizontal then 0 else 1
  }

  function ColStep(d: Dir): int {
    match d
    case Horizontal => 1
    case Vertical => 0
    case DownRight => 1
    case DownLeft => -1
  }

  /** All four cells of the run lie on the board. */
  predicate InBounds(w: Window) {
    0 <= w.row < 6 && 0 <= w.row + 3 * RowStep(w.dir) < 6 &&
    0 <= w.col < 7 && 0 <= w.col + 3 * ColStep(w.dir) < 7
  }

  /** The four cell values of a run, from its start: the source's `window` list. */
  datatype Line = Line(c0: Cell, c1: Cell, c2: Cell, c3: Cell)

  function Cells(b: Board, w: Window): Line
    requires InBounds(w)
  {
    var dr, dc := RowStep(w.dir), ColStep(w.dir);
    Line(b[w.row][w.col], b[w.row + dr][w.col + dc],
         b[w.row + 2 * dr][w.col + 2 * dc], b[w.row + 3 * dr][w.col + 3 * dc])
  }

  const WindowCount: nat := 69

  /** The number of rows of start cells for runs in direction `d`. */
  function Height(d: Dir): nat {
    match d
    case Horizontal => 6
    case Vertical => 3
    case DownRight => 3
    case DownLeft => 3
  }

  /** The number of start columns for runs in direction `d`. */
  function Width(d: Dir): nat {
    match d
    case Horizontal => 4
    case Vertical => 7
    case DownRight => 4
    case DownLeft => 4
  }

  /** The leftmost start column for runs in direction `d`. */
  function StartCol(d: Dir): nat {
    if d == DownLeft then 3 else 0
  }

  /**
   * The runs in direction `d` are exactly those that start in the block of
   * `Height(d)` rows and `Width(d)` columns from column `StartCol(d)`: 6 x 4,
   * 3 x 7, 3 x 4 and 3 x 4 start cells, the ranges of the source's loops.
   */
  lemma InBoundsIffBlock(w: Window)
    ensures InBounds(w) <==> 0 <= w.row < Height(w.dir) &&
                             StartCol(w.dir) <= w.col < StartCol(w.dir) + Width(w.dir)
  {
  }

  /**
   * The position of a run in the scan: horizontal runs first, row by row and
   * left to right within a row, then the vertical, down-right and down-left ones.
   */
  function Rank(w: Window): (k: int)
    requires InBounds(w)
    ensures 0 <= k < WindowCount
  {
    match w.dir
    case Horizontal => w.row * 4 + w.col
    case Vertical => 24 + w.row * 7 + w.col
    case DownRight => 45 + w.row * 4 + w.col
    case DownLeft => 57 + w.row * 4 + (w.col - 3)
  }

  /** The scan visits each run once: distinct runs have distinct positions. */
  lemma RankInjective(u: Window, v: Window)
    requires InBounds(u) && InBounds(v) && Rank(u) == Rank(v)
    ensures u == v
  {
  }

  /** The run at position `k` of the scan: every position holds a run. */
  function WindowAt(k: int): (w: Window)
    requires 0 <= k < WindowCount
    ensures InBounds(w) && Rank(w) == k
  {
    if k < 24 then Window(Horizontal, k / 4, k % 4)
    else if k < 45 then Window(Vertical, (k - 24) / 7, (k - 24) % 7)
    else if k < 57 then Window(DownRight, (k - 45) / 4, (k - 45) % 4)
    else Window(DownLeft, (k - 57) / 4, 3 + (k - 57) % 4)
  }

  /** The run the scan visits first. */
  const FirstWindow := Window(Horizontal, 0, 0)

  /** The run the scan visits after `w`, or None after the last one. */
  function Next(w: Window): (r: Option<Window>)
    requires InBounds(w)
    ensures r.None? <==> Rank(w) == WindowCount - 1
    ensures r.Some? ==> InBounds(r.value) && Rank(r.value) == Rank(w) + 1
  {
    var d := w.dir;
    if w.col + 1 < StartCol(d) + Width(d) then Some(Window(d, w.row, w.col + 1))
    else if w.row + 1 < Height(d) then Some(Window(d, w.row + 1, StartCol(d)))
    else
      match d
      case Horizontal => Some(Window(Vertical, 0, 0))
      case Vertical => Some(Window(DownRight, 0, 0))
      case DownRight => Some(Window(DownLeft, 0, 3))
      case DownLeft => None
  }

  /** Four equal, non-empty cells. */
  predicate IsRun(s: Line) {
    s.c0 != 0 && s.c0 == s.c1 && s.c1 == s.c2 && s.c2 == s.c3
  }

  /** Some run of four on the board, in any of the four directions, is a win. */
  ghost predicate HasRun(b: Board) {
    exists w :: InBounds(w) && IsRun(Cells(b, w))
  }

  /** No run at scan positions `lo`, ..., `hi` - 1 is a win. */
  ghost predicate NoRunBetween(b: Board, lo: int, hi: int) {
    forall u :: InBounds(u) && lo <= Rank(u) < hi ==> !IsRun(Cells(b, u))
  }

  /**
   * The piece of the first winning run the scan meets from `w` on, or None
   * when there is none. (The board in the measure keeps the verifier from
   * unfolding the whole scan when `w` is a literal.)
   */
  function FirstRun(b: Board, w: Window): (r: Option<Cell>)
    requires InBounds(w)
    decreases WindowCount - Rank(w), b
    ensures r.Some? ==> r.value != 0
  {
    var s := Cells(b, w);
    if IsRun(s) then Some(s.c0)
    else
      match Next(w)
      case None => None
      case Some(v) => FirstRun(b, v)
  }

  /** Excluding the run at `w` from a range that starts at it. */
  lemma NoRunBetweenStep(b: Board, w: Window, hi: int)
    requires InBounds(w) && Rank(w) < hi
    ensures NoRunBetween(b, Rank(w), hi) <==>
            !IsRun(Cells(b, w)) && NoRunBetween(b, Rank(w) + 1, hi)
  {
    forall u | InBounds(u) && Rank(u) == Rank(w)
      ensures u == w
    {
      RankInjective(u, w);
    }
  }

  /** The scan from `w` on finds nothing exactly when no later run wins. */
  lemma {:induction false} FirstRunNone(b: Board, w: Window)
    requires InBounds(w)
    decreases WindowCount - Rank(w)
    ensures FirstRun(b, w).None? <==> NoRunBetween(b, Rank(w), WindowCount)
  {
    NoRunBetweenStep(b, w, WindowCount);
    match Next(w)
    case None =>
    case Some(v) => FirstRunNone(b, v);
  }

  /**
   * The piece found is that of the first winning run from `w` on: every run
   * the scan passes before it is no win.
   */
  lemma {:induction false} FirstRunIsFirst(b: Board, w: Window)
    requires InBounds(w) && FirstRun(b, w).Some?
    decreases WindowCount - Rank(w)
    ensures exists v :: InBounds(v) && Rank(w) <= Rank(v) && IsRun(Cells(b, v)) &&
                        NoRunBetween(b, Rank(w), Rank(v)) &&
                        Cells(b, v).c0 == FirstRun(b, w).value
  {
    if IsRun(Cells(b, w)) {
      assert NoRunBetween(b, Rank(w), Rank(w));
    } else {
      var v :| Next(w) == Some(v);
      FirstRunIsFirst(b, v);
      var u :| InBounds(u) && Rank(v) <= Rank(u) && IsRun(Cells(b, u)) &&
               NoRunBetween(b, Rank(v), Rank(u)) && Cells(b, u).c0 == FirstRun(b, v).value;
      NoRunBetweenStep(b, w, Rank(u));
    }
  }

  /** `check_winner_board`: the piece of the first winning run in scan order. */
  function WinnerOf(b: Board): (r: Option<Cell>)
    ensures r.Some? ==> r.value == 1 || r.value == 2
  {
    FirstRun(b, FirstWindow)
  }

  /** `check_winner_board` returns a piece exactly when some run of four wins. */
  lemma WinnerIffRun(b: Board)
    ensures WinnerOf(b).Some? <==> HasRun(b)
  {
    FirstRunNone(b, FirstWindow);
    if HasRun(b) {
      var w :| InBounds(w) && IsRun(Cells(b, w));
      assert !NoRunBetween(b, 0, WindowCount);
    }
  }

  function SwapLine(s: Line): Line {
    Line(Swap(s.c0), Swap(s.c1), Swap(s.c2), Swap(s.c3))
  }

  function SwapWinner(o: Option<Cell>): Option<Cell> {
    match o
    case None => None
    case Some(x) => Some(Swap(x))
  }

  lemma CellsSwap(b: Board, w: Window)
    requires InBounds(w)
    ensures Cells(SwapBoard(b), w) == SwapLine(Cells(b, w))
  {
  }

  lemma {:induction false} FirstRunSwap(b: Board, w: Window)
    requires InBounds(w)
    decreases WindowCount - Rank(w)
    ensures FirstRun(SwapBoard(b), w) == SwapWinner(FirstRun(b, w))
  {
    CellsSwap(b, w);
    match Next(w)
    case None =>
    case Some(v) => FirstRunSwap(b, v);
  }

  /** Exchanging red and yellow on the board exchanges the winner. */
  lemma WinnerSwap(b: Board)
    ensures WinnerOf(SwapBoard(b)) == SwapWinner(WinnerOf(b))
  {
    FirstRunSwap(b, FirstWindow);
  }
}
