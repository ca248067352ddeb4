/**
 * The 7-column by 6-row Connect 4 grid of `Connect4Game` (main.py), stored as
 * a list of rows with row 0 at the top, and the rules that only look at or
 * copy a board: legality, the list of legal moves, fullness and gravity drop.
 */
module Boards {
  import opened Options

  /** 0 is an empty cell, 1 a red piece, 2 a yellow piece. */
  type Cell = x: int | 0 <= x <= 2

  /** The two players: 1 (red) and 2 (yellow). */
  type Player = x: int | x == 1 || x == 2 witness 1

  type Row = r: seq<Cell> | |r| == 7 witness [0, 0, 0, 0, 0, 0, 0]

  /** A row of seven empty cells. */
  const EmptyRow: Row := [0, 0, 0, 0, 0, 0, 0]

  /** `self.board`: `ROWS` = 6 rows of `COLS` = 7 cells. */
  type Board = b: seq<Row> | |b| == 6
    witness [EmptyRow, EmptyRow, EmptyRow, EmptyRow, EmptyRow, EmptyRow]

  /** `3 - player`, the other player. */
  function Opponent(p: Player): (q: Player)
    ensures q != p
  {
    3 - p
  }

  /** Exchanges the labels 1 and 2 of one cell. */
  function Swap(x: Cell): Cell {
    if x == 0 then 0 else 3 - x
  }

  /** The board with every red piece made yellow and every yellow piece made red. */
  function SwapBoard(b: Board): (s: Board)
    ensures forall r, c :: 0 <= r < 6 && 0 <= c < 7 ==> s[r][c] == Swap(b[r][c])
  {
    seq(6, r requires 0 <= r < 6 => seq(7, c requires 0 <= c < 7 => Swap(b[r][c])))
  }

  /** The board `reset_game` and `__init__` install: every cell empty. */
  function EmptyBoard(): (b: Board)
    ensures forall r, c :: 0 <= r < 6 && 0 <= c < 7 ==> b[r][c] == 0
  {
    seq(6, _ => seq(7, _ => 0))
  }

  // ---------------------------------------------------------------------------
  // Legal moves
  // ---------------------------------------------------------------------------

  /** `is_valid_move`: the column exists and its top cell is empty. */
  predicate IsValidMove(b: Board, col: int) {
    0 <= col < 7 && b[0][col] == 0
  }

  /** `is_board_full`: every column's top cell is occupied. */
  predicate IsBoardFull(b: Board) {
    forall c :: 0 <= c < 7 ==> b[0][c] != 0
  }

  /** The legal columns among `from`, ..., 6, in ascending order. */
  function ValidMovesFrom(b: Board, from: nat): (ms: seq<int>)
    decreases 7 - from, b
    ensures forall x :: x in ms <==> from <= x && IsValidMove(b, x)
    ensures forall i :: 0 <= i < |ms| ==> from <= ms[i]
    ensures forall i, j :: 0 <= i < j < |ms| ==> ms[i] < ms[j]
  {
    if from >= 7 then []
    else (if b[0][from] == 0 then [from] else []) + ValidMovesFrom(b, from + 1)
  }

  /** `get_valid_moves`: the columns whose top cell is empty, in ascending order. */
  function ValidMoves(b: Board): (ms: seq<int>)
    ensures forall x :: x in ms <==> IsValidMove(b, x)
    ensures forall i :: 0 <= i < |ms| ==> IsValidMove(b, ms[i])
    ensures forall i, j :: 0 <= i < j < |ms| ==> ms[i] < ms[j]
  {
    ValidMovesFrom(b, 0)
  }

  /** With every column open, the legal columns among `from`, ..., 6 are all of them. */
  lemma {:induction false} ValidMovesAllOpen(b: Board, from: nat)
    requires from <= 7
    requires forall c :: 0 <= c < 7 ==> b[0][c] == 0
    decreases 7 - from
    ensures ValidMovesFrom(b, from) == seq(7 - from, i => from + i)
  {
    if from < 7 {
      ValidMovesAllOpen(b, from + 1);
    }
  }

  /** The number of full columns among `from`, ..., 6. */
  function FullColumnsFrom(b: Board, from: nat): nat
    decreases 7 - from, b
  {
    if from >= 7 then 0
    else (if b[0][from] != 0 then 1 else 0) + FullColumnsFrom(b, from + 1)
  }

  /** Legal columns and full columns together make up all 7 columns. */
  lemma {:induction false} ValidMovesCount(b: Board)
    ensures |ValidMoves(b)| + FullColumnsFrom(b, 0) == 7
  {
    ValidMovesCountFrom(b, 0);
  }

  lemma {:induction false} ValidMovesCountFrom(b: Board, from: nat)
    requires from <= 7
    decreases 7 - from
    ensures |ValidMovesFrom(b, from)| + FullColumnsFrom(b, from) == 7 - from
  {
    if from < 7 {
      ValidMovesCountFrom(b, from + 1);
    }
  }

  lemma {:induction false} FullNoMovesFrom(b: Board, from: nat)
    requires IsBoardFull(b)
    decreases 7 - from
    ensures ValidMovesFrom(b, from) == []
  {
    if from < 7 {
      FullNoMovesFrom(b, from + 1);
    }
  }

  /** `is_board_full` holds exactly when there is no legal move. */
  lemma BoardFullIffNoMoves(b: Board)
    ensures IsBoardFull(b) <==> ValidMoves(b) == []
  {
    var ms := ValidMoves(b);
    if !IsBoardFull(b) {
      var c :| 0 <= c < 7 && b[0][c] == 0;
      assert c in ms;
    } else {
      FullNoMovesFrom(b, 0);
    }
  }

  // ---------------------------------------------------------------------------
  // Gravity drop
  // ---------------------------------------------------------------------------

  /** The lowest row at or above `row` whose cell in `col` is empty. */
  function LowestEmptyFrom(b: Board, col: int, row: int): (r: Option<int>)
    requires 0 <= col < 7 && -1 <= row < 6
    decreases row + 1, b
    ensures r.Some? ==> 0 <= r.value <= row && b[r.value][col] == 0
    ensures r.Some? ==> forall k :: r.value < k <= row ==> b[k][col] != 0
    ensures r.None? ==> forall k :: 0 <= k <= row ==> b[k][col] != 0
  {
    if row < 0 then None
    else if b[row][col] == 0 then Some(row)
    else LowestEmptyFrom(b, col, row - 1)
  }

  /** The bottom-most empty row of `col`, if the column has one. */
  function LowestEmpty(b: Board, col: int): Option<int>
    requires 0 <= col < 7
  {
    LowestEmptyFrom(b, col, 5)
  }

  /**
   * The board after dropping `p` into `col`: its value is what
   * `make_move_copy` returns. A column without an empty cell is left as it is.
   */
  function Drop(b: Board, col: int, p: Player): Board
    requires 0 <= col < 7
  {
    match LowestEmpty(b, col)
    case None => b
    case Some(r) => b[r := b[r][col := p]]
  }

  /**
   * `make_move_copy`: copies the rows, then scans `col` from the bottom and
   * writes `player` into the first empty cell it meets. The input is a value,
   * so the caller's board cannot change.
   */
  method MakeMoveCopy(b: Board, col: int, p: Player) returns (nb: Board)
    requires 0 <= col < 7
    ensures nb == Drop(b, col, p)
  {
    nb := b;
    var row := 5;
    while row >= 0
      invariant -1 <= row <= 5
      invariant nb == b
      invariant LowestEmpty(b, col) == LowestEmptyFrom(b, col, row)
    {
      if nb[row][col] == 0 {
        nb := nb[row := nb[row][col := p]];
        break;
      }
      row := row - 1;
    }
  }

  /** No column has an empty cell below a piece. */
  predicate Gravity(b: Board) {
    forall r, r', c :: 0 <= r < r' < 6 && 0 <= c < 7 && b[r][c] != 0 ==> b[r'][c] != 0
  }

  /** The number of pieces in one row. */
  function RowPieces(row: seq<Cell>): nat {
    if row == [] then 0 else (if row[0] != 0 then 1 else 0) + RowPieces(row[1..])
  }

  /** The number of pieces in rows `from`, ..., 5. */
  function PiecesFrom(b: Board, from: nat): nat
    decreases 6 - from, b
  {
    if from >= 6 then 0 else RowPieces(b[from]) + PiecesFrom(b, from + 1)
  }

  /** The number of pieces on the board. */
  function Pieces(b: Board): nat {
    PiecesFrom(b, 0)
  }

  lemma {:induction false} RowPiecesUpdate(row: seq<Cell>, c: nat, x: Cell)
    requires c < |row| && row[c] == 0 && x != 0
    ensures RowPieces(row[c := x]) == RowPieces(row) + 1
  {
    if c > 0 {
      assert row[c := x][1..] == row[1..][c - 1 := x];
      RowPiecesUpdate(row[1..], c - 1, x);
    }
  }

  lemma {:induction false} PiecesFromUpdate(b: Board, from: nat, r: nat, row: Row)
    requires from <= r < 6 && RowPieces(row) == RowPieces(b[r]) + 1
    decreases 6 - from
    ensures PiecesFrom(b[r := row], from) == PiecesFrom(b, from) + 1
  {
    if from < r {
      PiecesFromUpdate(b, from + 1, r, row);
    } else {
      PiecesFromSame(b, b[r := row], from + 1);
    }
  }

  lemma {:induction false} PiecesFromSame(b: Board, b': Board, from: nat)
    requires forall k :: from <= k < 6 ==> b[k] == b'[k]
    decreases 6 - from
    ensures PiecesFrom(b, from) == PiecesFrom(b', from)
  {
    if from < 6 {
      PiecesFromSame(b, b', from + 1);
    }
  }

  /**
   * Dropping into a column whose top cell is empty changes exactly one cell,
   * the bottom-most empty cell of that column, which then holds the player.
   * Gravity is kept and the number of pieces grows by one.
   */
  lemma DropIntoOpenColumn(b: Board, col: int, p: Player)
    requires 0 <= col < 7 && b[0][col] == 0
    ensures LowestEmpty(b, col).Some?
    ensures var row := LowestEmpty(b, col).value;
            var nb := Drop(b, col, p);
            b[row][col] == 0 && (forall k :: row < k < 6 ==> b[k][col] != 0) &&
            nb[row][col] == p &&
            (forall r, c :: 0 <= r < 6 && 0 <= c < 7 && (r != row || c != col) ==> nb[r][c] == b[r][c])
    ensures Gravity(b) ==> Gravity(Drop(b, col, p))
    ensures Pieces(Drop(b, col, p)) == Pieces(b) + 1
  {
    var row := LowestEmpty(b, col).value;
    RowPiecesUpdate(b[row], col, p);
    PiecesFromUpdate(b, 0, row, b[row][col := p]);
  }

  /** Under gravity, a column whose top cell is occupied is full, and a drop into it changes nothing. */
  lemma DropIntoFullColumn(b: Board, col: int, p: Player)
    requires 0 <= col < 7 && b[0][col] != 0 && Gravity(b)
    ensures LowestEmpty(b, col).None?
    ensures Drop(b, col, p) == b
  {
    assert forall k :: 0 < k < 6 ==> b[k][col] != 0;
  }
}
