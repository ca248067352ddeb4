/**
 * `minimax` and `get_best_move` (main.py): a depth-limited search from the
 * point of view of player 1 (red), who maximises, against player 2 (yellow),
 * who minimises, over the legal columns in ascending order, with alpha-beta
 * pruning. `Search` is the plain minimax value the pruned method is proved
 * against.
 */
module AlphaBeta {
  import opened Options
  import opened Boards
  import opened Windows
  import opened Evaluation

  /**
   * A search value: an integer, or one of the sentinels `-math.inf` and
   * `math.inf` that start the window and the running best values.
   */
  datatype Score = NegInf | Fin(n: int) | PosInf

  predicate Lt(x: Score, y: Score) {
    match x
    case NegInf => !y.NegInf?
    case Fin(m) => y.PosInf? || (y.Fin? && m < y.n)
    case PosInf => false
  }

  predicate Le(x: Score, y: Score) {
    !Lt(y, x)
  }

  /** Python's `max(x, y)`: `x` unless `y` is larger. */
  function Max(x: Score, y: Score): (r: Score)
    ensures Le(x, r) && Le(y, r) && (r == x || r == y)
  {
    if Lt(x, y) then y else x
  }

  /** Python's `min(x, y)`: `x` unless `y` is smaller. */
  function Min(x: Score, y: Score): (r: Score)
    ensures Le(r, x) && Le(r, y) && (r == x || r == y)
  {
    if Lt(y, x) then y else x
  }

  /** The value a best-so-far starts from: `-math.inf` when maximising, `math.inf` when not. */
  function Init(maximizing: bool): Score {
    if maximizing then NegInf else PosInf
  }

  /** The player who drops a piece at a node: red when maximising, yellow when not. */
  function Mover(maximizing: bool): Player {
    if maximizing then 1 else 2
  }

  /**
   * The value of a node at which the search stops, or None where it goes on:
   * a red win scores 1000 + depth and a yellow win -1000 - depth (sooner wins
   * count more), and a full board or the depth limit scores `evaluate_board`.
   */
  function Leaf(b: Board, depth: nat): Option<int> {
    match WinnerOf(b)
    case Some(w) => if w == 1 then Some(1000 + depth) else Some(-1000 - depth)
    case None => if IsBoardFull(b) || depth == 0 then Some(BoardScore(b)) else None
  }

  /**
   * Plain minimax without pruning: the value of `b` with `depth` plies to go
   * and the first column, in ascending order, that reaches it (None at a leaf).
   */
  function Search(b: Board, depth: nat, maximizing: bool): (Score, Option<int>)
    decreases depth, 2, 0
  {
    match Leaf(b, depth)
    case Some(v) => (Fin(v), None)
    case None => Scan(b, depth, maximizing, ValidMoves(b), 0, Init(maximizing), None)
  }

  /** The plain minimax value of the position after the mover drops a piece in `col`. */
  function Child(b: Board, depth: nat, maximizing: bool, col: int): Score
    requires depth > 0 && 0 <= col < 7
    decreases depth, 0, 0
  {
    Search(Drop(b, col, Mover(maximizing)), depth - 1, !maximizing).0
  }

  /**
   * The loop of minimax without pruning over `moves[i..]`, with `best` the
   * best value met so far and `bestCol` its column; a later column replaces
   * it only when strictly better.
   */
  function Scan(b: Board, depth: nat, maximizing: bool, moves: seq<int>, i: nat,
                best: Score, bestCol: Option<int>): (Score, Option<int>)
    requires depth > 0 && i <= |moves|
    requires Legal(b, moves)
    decreases depth, 1, |moves| - i
  {
    if i == |moves| then (best, bestCol)
    else
      assert IsValidMove(b, moves[i]);
      var v := Child(b, depth, maximizing, moves[i]);
      if (maximizing && Lt(best, v)) || (!maximizing && Lt(v, best)) then
        Scan(b, depth, maximizing, moves, i + 1, v, Some(moves[i]))
      else
        Scan(b, depth, maximizing, moves, i + 1, best, bestCol)
  }

  /**
   * Minimax always yields an integer, and away from a leaf the first legal
   * column that reaches it.
   */
  lemma {:induction false} SearchValue(b: Board, depth: nat, maximizing: bool)
    decreases depth, 2, 0
    ensures Search(b, depth, maximizing).0.Fin?
    ensures Leaf(b, depth).None? ==>
              Search(b, depth, maximizing).1.Some? && IsValidMove(b, Search(b, depth, maximizing).1.value)
  {
    if Leaf(b, depth).None? {
      BoardFullIffNoMoves(b);
      ScanValue(b, depth, maximizing, ValidMoves(b), 0, Init(maximizing), None);
    }
  }

  /**
   * The loop never does worse than the best value it starts from, keeps an
   * integer once it has one, and picks a legal column once it has tried one.
   */
  lemma {:induction false} ScanValue(b: Board, depth: nat, maximizing: bool, moves: seq<int>, i: nat,
                                     best: Score, bestCol: Option<int>)
    requires depth > 0 && i <= |moves|
    requires Legal(b, moves)
    decreases depth, 1, |moves| - i
    ensures var r := Scan(b, depth, maximizing, moves, i, best, bestCol);
            (best.Fin? ==> r.0.Fin?) &&
            (r.1 == bestCol || (r.1.Some? && IsValidMove(b, r.1.value))) &&
            (best == Init(maximizing) && i < |moves| ==> r.0.Fin? && r.1.Some? && IsValidMove(b, r.1.value)) &&
            (maximizing ==> Le(best, r.0)) &&
            (!maximizing ==> Le(r.0, best))
  {
    if i < |moves| {
      assert IsValidMove(b, moves[i]);
      SearchValue(Drop(b, moves[i], Mover(maximizing)), depth - 1, !maximizing);
      var v := Child(b, depth, maximizing, moves[i]);
      if (maximizing && Lt(best, v)) || (!maximizing && Lt(v, best)) {
        ScanValue(b, depth, maximizing, moves, i + 1, v, Some(moves[i]));
      } else {
        ScanValue(b, depth, maximizing, moves, i + 1, best, bestCol);
      }
    }
  }

  /**
   * What a fail-soft alpha-beta search promises about the score `s` it
   * returns for a node of true value `v` searched with window (`alpha`, `beta`):
   * a score at or below `alpha` bounds `v` from above, one at or above
   * `beta` bounds it from below, and one inside the window is `v` itself.
   */
  predicate FailSoft(s: Score, v: Score, alpha: Score, beta: Score) {
    (Le(s, alpha) ==> Le(v, s)) &&
    (Lt(alpha, s) && Lt(s, beta) ==> s == v) &&
    (Le(beta, s) ==> Le(s, v))
  }

  /**
   * What the maximising loop keeps: `a` is the raised `alpha`, and while the
   * window is open the pruned best `score` bounds the true best `um` of the
   * columns tried so far from above, and equals it once above `alpha`.
   */
  predicate MaxKeeps(alpha: Score, beta: Score, a: Score, score: Score, um: Score) {
    a == Max(alpha, score) &&
    (Lt(alpha, beta) ==> Lt(a, beta) && Le(um, score) && (Lt(alpha, score) ==> um == score))
  }

  /** The minimising loop's mirror image of `MaxKeeps`, with `bb` the lowered `beta`. */
  predicate MinKeeps(alpha: Score, beta: Score, bb: Score, score: Score, um: Score) {
    bb == Min(beta, score) &&
    (Lt(alpha, beta) ==> Lt(alpha, bb) && Le(score, um) && (Lt(score, beta) ==> um == score))
  }

  /**
   * One column of the maximising loop: the child's pruned score `e` and true
   * value `v` update both best values. Either the loop goes on and keeps
   * `MaxKeeps`, or it breaks on `beta <= alpha` with a score that bounds the
   * true value from below; with the full window it never breaks and the
   * pruned and the true best move together.
   */
  lemma MaxStep(alpha: Score, beta: Score, a: Score, score: Score, um: Score, e: Score, v: Score)
    requires MaxKeeps(alpha, beta, a, score, um)
    requires e.Fin?
    requires Lt(a, beta) ==> FailSoft(e, v, a, beta)
    ensures var score', um', a' := if Lt(score, e) then e else score, if Lt(um, v) then v else um, Max(a, e);
            (!Le(beta, a') ==> MaxKeeps(alpha, beta, a', score', um')) &&
            (Le(beta, a') && Lt(alpha, beta) ==> Le(beta, score') && Le(score', um')) &&
            (alpha == NegInf && beta == PosInf && score == um ==>
               !Le(beta, a') && (Lt(score, e) <==> Lt(um, v)))
  {
  }

  /** The mirror image of `MaxStep` for the minimising loop. */
  lemma MinStep(alpha: Score, beta: Score, bb: Score, score: Score, um: Score, e: Score, v: Score)
    requires MinKeeps(alpha, beta, bb, score, um)
    requires e.Fin?
    requires Lt(alpha, bb) ==> FailSoft(e, v, alpha, bb)
    ensures var score', um', bb' := if Lt(e, score) then e else score, if Lt(v, um) then v else um, Min(bb, e);
            (!Le(bb', alpha) ==> MinKeeps(alpha, beta, bb', score', um')) &&
            (Le(bb', alpha) && Lt(alpha, beta) ==> Le(score', alpha) && Le(um', score')) &&
            (alpha == NegInf && beta == PosInf && score == um ==>
               !Le(bb', alpha) && (Lt(e, score) <==> Lt(v, um)))
  {
  }

  /** A cut-off score that bounds a lower bound of the true value is fail-soft. */
  lemma CutOff(alpha: Score, beta: Score, score: Score, um: Score, v: Score, maximizing: bool)
    requires Lt(alpha, beta)
    requires maximizing ==> Le(beta, score) && Le(score, um) && Le(um, v)
    requires !maximizing ==> Le(score, alpha) && Le(um, score) && Le(v, um)
    ensures FailSoft(score, v, alpha, beta)
  {
  }

  /** The columns are legal moves, so the unpruned loop over them is defined. */
  predicate Legal(b: Board, moves: seq<int>) {
    forall k :: 0 <= k < |moves| ==> IsValidMove(b, moves[k])
  }

  /**
   * What the pruned loop over `moves` delivers, against the unpruned loop:
   * an integer score and a legal column, a fail-soft score within an open
   * window, and with the full window exactly the unpruned value and column.
   */
  ghost predicate LoopResult(b: Board, depth: nat, maximizing: bool, alpha: Score, beta: Score,
                             moves: seq<int>, score: Score, bestCol: Option<int>)
    requires depth > 0 && Legal(b, moves)
  {
    var t := Scan(b, depth, maximizing, moves, 0, Init(maximizing), None);
    score.Fin? && bestCol.Some? && IsValidMove(b, bestCol.value) &&
    (Lt(alpha, beta) ==> FailSoft(score, t.0, alpha, beta)) &&
    (alpha == NegInf && beta == PosInf ==> (score, bestCol) == t)
  }

  /**
   * What the loops keep before column `i`: the unpruned loop from `i` on,
   * started from the true best `um` and its column `ucol`, ends where it does
   * from the start; `w` is the raised `alpha` (or lowered `beta`); the
   * pruned best `score` is related to `um` as `MaxKeeps` (or `MinKeeps`)
   * says; and with the full window the pruned and the true best agree.
   */
  ghost predicate LoopKeeps(b: Board, depth: nat, maximizing: bool, alpha: Score, beta: Score,
                            moves: seq<int>, i: nat, w: Score, score: Score, bestCol: Option<int>,
                            um: Score, ucol: Option<int>)
    requires depth > 0 && i <= |moves| && Legal(b, moves)
  {
    Scan(b, depth, maximizing, moves, i, um, ucol) == Scan(b, depth, maximizing, moves, 0, Init(maximizing), None) &&
    (maximizing ==> MaxKeeps(alpha, beta, w, score, um)) &&
    (!maximizing ==> MinKeeps(alpha, beta, w, score, um)) &&
    (i == 0 ==> score == Init(maximizing) && um == Init(maximizing) && bestCol == None && ucol == None) &&
    (i > 0 ==> score.Fin? && bestCol.Some? && IsValidMove(b, bestCol.value)) &&
    (alpha == NegInf && beta == PosInf ==> score == um && bestCol == ucol)
  }

  /**
   * One column of the maximising loop keeps `LoopKeeps`, or ends it with a
   * cut-off that already meets `LoopResult`.
   */
  lemma MaxColumn(b: Board, depth: nat, alpha: Score, beta: Score, moves: seq<int>, i: nat,
                  a: Score, score: Score, bestCol: Option<int>, um: Score, ucol: Option<int>, e: Score,
                  a': Score, score': Score, bestCol': Option<int>)
    returns (um': Score, ucol': Option<int>)
    requires depth > 0 && i < |moves| && Legal(b, moves)
    requires LoopKeeps(b, depth, true, alpha, beta, moves, i, a, score, bestCol, um, ucol)
    requires e.Fin? && (Lt(a, beta) ==> FailSoft(e, Child(b, depth, true, moves[i]), a, beta))
    requires score' == (if Lt(score, e) then e else score)
    requires bestCol' == (if Lt(score, e) then Some(moves[i]) else bestCol)
    requires a' == Max(a, e)
    ensures !Le(beta, a') ==> LoopKeeps(b, depth, true, alpha, beta, moves, i + 1, a', score', bestCol', um', ucol')
    ensures Le(beta, a') ==> LoopResult(b, depth, true, alpha, beta, moves, score', bestCol')
  {
    assert IsValidMove(b, moves[i]);
    var v := Child(b, depth, true, moves[i]);
    um', ucol' := if Lt(um, v) then v else um, if Lt(um, v) then Some(moves[i]) else ucol;
    MaxStep(alpha, beta, a, score, um, e, v);
    assert Scan(b, depth, true, moves, i, um, ucol) == Scan(b, depth, true, moves, i + 1, um', ucol');
    if Le(beta, a') && Lt(alpha, beta) {
      ScanValue(b, depth, true, moves, i + 1, um', ucol');
      CutOff(alpha, beta, score', um', Scan(b, depth, true, moves, 0, NegInf, None).0, true);
    }
  }

  /** The mirror image of `MaxColumn` for the minimising loop. */
  lemma MinColumn(b: Board, depth: nat, alpha: Score, beta: Score, moves: seq<int>, i: nat,
                  bb: Score, score: Score, bestCol: Option<int>, um: Score, ucol: Option<int>, e: Score,
                  bb': Score, score': Score, bestCol': Option<int>)
    returns (um': Score, ucol': Option<int>)
    requires depth > 0 && i < |moves| && Legal(b, moves)
    requires LoopKeeps(b, depth, false, alpha, beta, moves, i, bb, score, bestCol, um, ucol)
    requires e.Fin? && (Lt(alpha, bb) ==> FailSoft(e, Child(b, depth, false, moves[i]), alpha, bb))
    requires score' == (if Lt(e, score) then e else score)
    requires bestCol' == (if Lt(e, score) then Some(moves[i]) else bestCol)
    requires bb' == Min(bb, e)
    ensures !Le(bb', alpha) ==> LoopKeeps(b, depth, false, alpha, beta, moves, i + 1, bb', score', bestCol', um', ucol')
    ensures Le(bb', alpha) ==> LoopResult(b, depth, false, alpha, beta, moves, score', bestCol')
  {
    assert IsValidMove(b, moves[i]);
    var v := Child(b, depth, false, moves[i]);
    um', ucol' := if Lt(v, um) then v else um, if Lt(v, um) then Some(moves[i]) else ucol;
    MinStep(alpha, beta, bb, score, um, e, v);
    assert Scan(b, depth, false, moves, i, um, ucol) == Scan(b, depth, false, moves, i + 1, um', ucol');
    if Le(bb', alpha) && Lt(alpha, beta) {
      ScanValue(b, depth, false, moves, i + 1, um', ucol');
      CutOff(alpha, beta, score', um', Scan(b, depth, false, moves, 0, PosInf, None).0, false);
    }
  }

  /** A loop that tries every column without a cut-off meets `LoopResult`. */
  lemma LoopDone(b: Board, depth: nat, maximizing: bool, alpha: Score, beta: Score, moves: seq<int>,
                 w: Score, score: Score, bestCol: Option<int>, um: Score, ucol: Option<int>)
    requires depth > 0 && moves != [] && Legal(b, moves)
    requires LoopKeeps(b, depth, maximizing, alpha, beta, moves, |moves|, w, score, bestCol, um, ucol)
    ensures LoopResult(b, depth, maximizing, alpha, beta, moves, score, bestCol)
  {
  }

  /**
   * `minimax(board, depth, alpha, beta, maximizing)`. The score is always an
   * integer; within an open window it is fail-soft against plain minimax,
   * and with the full window (-inf, +inf) score and column are exactly those
   * of plain minimax over the same move order. Leaves return their value and
   * no column; elsewhere the column is a legal move.
   */
  method Minimax(b: Board, depth: nat, alpha: Score, beta: Score, maximizing: bool)
    returns (score: Score, bestCol: Option<int>)
    decreases depth, 2
    ensures score.Fin?
    ensures Lt(alpha, beta) ==> FailSoft(score, Search(b, depth, maximizing).0, alpha, beta)
    ensures alpha == NegInf && beta == PosInf ==> (score, bestCol) == Search(b, depth, maximizing)
    ensures Leaf(b, depth).Some? ==> score == Fin(Leaf(b, depth).value) && bestCol == None
    ensures Leaf(b, depth).None? ==> bestCol.Some? && IsValidMove(b, bestCol.value)
  {
    var winner := WinnerOf(b);
    if winner == Some(1) {
      return Fin(1000 + depth), None;
    } else if winner == Some(2) {
      return Fin(-1000 - depth), None;
    } else if IsBoardFull(b) || depth == 0 {
      var s := EvaluateBoard(b);
      return Fin(s), None;
    }
    var moves := ValidMoves(b);
    BoardFullIffNoMoves(b);
    if maximizing {
      score, bestCol := MaxLoop(b, depth, alpha, beta, moves);
    } else {
      score, bestCol := MinLoop(b, depth, alpha, beta, moves);
    }
  }

  /** The maximising branch of `minimax`: red tries each column in turn. */
  method MaxLoop(b: Board, depth: nat, alpha: Score, beta: Score, moves: seq<int>)
    returns (score: Score, bestCol: Option<int>)
    requires depth > 0 && moves != [] && Legal(b, moves)
    decreases depth, 1
    ensures LoopResult(b, depth, true, alpha, beta, moves, score, bestCol)
  {
    score, bestCol := NegInf, None;
    var a := alpha;
    ghost var um, ucol := NegInf, None;
    var i := 0;
    while i < |moves|
      invariant 0 <= i <= |moves|
      invariant LoopKeeps(b, depth, true, alpha, beta, moves, i, a, score, bestCol, um, ucol)
    {
      var col := moves[i];
      var e := MaxChild(b, depth, a, beta, col);
      ghost var a0, score0, bestCol0 := a, score, bestCol;
      if Lt(score, e) {
        score, bestCol := e, Some(col);
      }
      a := Max(a, e);
      um, ucol := MaxColumn(b, depth, alpha, beta, moves, i, a0, score0, bestCol0, um, ucol, e, a, score, bestCol);
      if Le(beta, a) {
        return;
      }
      i := i + 1;
    }
    LoopDone(b, depth, true, alpha, beta, moves, a, score, bestCol, um, ucol);
  }

  /** One column of the maximising branch: red drops a piece and yellow answers. */
  method MaxChild(b: Board, depth: nat, a: Score, beta: Score, col: int) returns (e: Score)
    requires depth > 0 && 0 <= col < 7
    decreases depth, 0
    ensures e.Fin?
    ensures Lt(a, beta) ==> FailSoft(e, Child(b, depth, true, col), a, beta)
  {
    var nb := MakeMoveCopy(b, col, 1);
    var col0: Option<int>;
    e, col0 := Minimax(nb, depth - 1, a, beta, false);
  }

  /** The minimising branch of `minimax`: yellow tries each column in turn. */
  method MinLoop(b: Board, depth: nat, alpha: Score, beta: Score, moves: seq<int>)
    returns (score: Score, bestCol: Option<int>)
    requires depth > 0 && moves != [] && Legal(b, moves)
    decreases depth, 1
    ensures LoopResult(b, depth, false, alpha, beta, moves, score, bestCol)
  {
    score, bestCol := PosInf, None;
    var bb := beta;
    ghost var um, ucol := PosInf, None;
    var i := 0;
    while i < |moves|
      invariant 0 <= i <= |moves|
      invariant LoopKeeps(b, depth, false, alpha, beta, moves, i, bb, score, bestCol, um, ucol)
    {
      var col := moves[i];
      var e := MinChild(b, depth, alpha, bb, col);
      ghost var bb0, score0, bestCol0 := bb, score, bestCol;
      if Lt(e, score) {
        score, bestCol := e, Some(col);
      }
      bb := Min(bb, e);
      um, ucol := MinColumn(b, depth, alpha, beta, moves, i, bb0, score0, bestCol0, um, ucol, e, bb, score, bestCol);
      if Le(bb, alpha) {
        return;
      }
      i := i + 1;
    }
    LoopDone(b, depth, false, alpha, beta, moves, bb, score, bestCol, um, ucol);
  }

  /** One column of the minimising branch: yellow drops a piece and red answers. */
  method MinChild(b: Board, depth: nat, alpha: Score, bb: Score, col: int) returns (e: Score)
    requires depth > 0 && 0 <= col < 7
    decreases depth, 0
    ensures e.Fin?
    ensures Lt(alpha, bb) ==> FailSoft(e, Child(b, depth, false, col), alpha, bb)
  {
    var nb := MakeMoveCopy(b, col, 2);
    var col0: Option<int>;
    e, col0 := Minimax(nb, depth - 1, alpha, bb, true);
  }

  /**
   * `get_best_move`: the column of a depth-6 search with the full window,
   * always maximising for red, which is the column plain minimax picks.
   */
  method GetBestMove(b: Board) returns (col: Option<int>)
    ensures col == Search(b, 6, true).1
    ensures Leaf(b, 6).None? ==> col.Some? && IsValidMove(b, col.value)
    ensures Leaf(b, 6).Some? ==> col == None
  {
    var _, c := Minimax(b, 6, NegInf, PosInf, true);
    col := c;
  }
}
