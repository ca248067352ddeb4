/**
 * The game state of `Connect4Game` (main.py) and the operations that update
 * it: a move, the winner check that follows it, the change of turn, the AI
 * suggestion and the reset. The drop animation is left out; its logical
 * effect (the piece lands, then the winner check, then the change of turn)
 * is applied at once.
 */
module Game {
  import opened Options
  import opened Boards
  import opened Windows
  import opened AlphaBeta

  class Connect4Game {
    var board: Board
    var currentPlayer: Player
    var gameOver: bool
    /** None while the game runs; the winning piece, or 0 for a draw, once it is over. */
    var winner: Option<Cell>
    var suggestedCol: Option<int>
    var animating: bool
    var aiPlayer: Option<Player>
    var gameStarted: bool

    /**
     * Pieces rest on pieces or on the bottom, and the game is over exactly
     * when an outcome has been recorded.
     */
    ghost predicate Valid()
      reads this
    {
      Gravity(board) && (gameOver <==> winner.Some?)
    }

    /** The column `calculate_suggestion` stores: the search's choice on the AI's turn, else None. */
    function Suggestion(): Option<int>
      reads this
    {
      if gameOver || aiPlayer != Some(currentPlayer) || !gameStarted then None
      else Search(board, 6, true).1
    }

    /** `__init__`: an empty board, red to play, no AI colour chosen yet. */
    constructor()
      ensures Valid()
      ensures board == EmptyBoard() && currentPlayer == 1 && !gameOver && winner == None
      ensures suggestedCol == None && !animating && aiPlayer == None && !gameStarted
    {
      board := EmptyBoard();
      currentPlayer := 1;
      gameOver := false;
      winner := None;
      suggestedCol := None;
      animating := false;
      aiPlayer := None;
      gameStarted := false;
    }

    /** `reset_game`: back to the state a new game starts in. */
    method ResetGame()
      modifies this
      ensures Valid()
      ensures board == EmptyBoard() && currentPlayer == 1 && !gameOver && winner == None
      ensures suggestedCol == None && !animating && aiPlayer == None && !gameStarted
    {
      board := EmptyBoard();
      currentPlayer := 1;
      gameOver := false;
      winner := None;
      suggestedCol := None;
      animating := false;
      aiPlayer := None;
      gameStarted := false;
    }

    /** `is_valid_move`: a column on the board whose top cell is empty, that is, one of `get_valid_moves`. */
    function IsValidMove(col: int): (r: bool)
      reads this
      ensures r <==> col in ValidMoves(board)
      ensures r ==> 0 <= col < 7
    {
      0 <= col < 7 && board[0][col] == 0
    }

    /**
     * `check_winner`: the runs of four are scanned in the order of
     * `check_winner_board`; the first winning run ends the game with its
     * piece as the winner. Without one, a full top row ends it as a draw
     * (winner 0), and otherwise nothing changes.
     */
    method CheckWinner()
      modifies this
      ensures board == old(board) && currentPlayer == old(currentPlayer) && suggestedCol == old(suggestedCol)
      ensures animating == old(animating) && aiPlayer == old(aiPlayer) && gameStarted == old(gameStarted)
      ensures WinnerOf(board).Some? ==> gameOver && winner == WinnerOf(board)
      ensures WinnerOf(board).None? && IsBoardFull(board) ==> gameOver && winner == Some(0)
      ensures WinnerOf(board).None? && !IsBoardFull(board) ==> gameOver == old(gameOver) && winner == old(winner)
    {
      var w := FirstWindow;
      while true
        invariant InBounds(w)
        invariant FirstRun(board, w) == WinnerOf(board)
        decreases WindowCount - Rank(w)
      {
        var s := Cells(board, w);
        if IsRun(s) {
          gameOver := true;
          winner := Some(s.c0);
          return;
        }
        var next := Next(w);
        if next.None? {
          break;
        }
        w := next.value;
      }
      if IsBoardFull(board) {
        gameOver := true;
        winner := Some(0);
      }
    }

    /**
     * `calculate_suggestion`: on the AI's turn of a started, unfinished game
     * the suggestion is the column `get_best_move` picks, else None.
     */
    method CalculateSuggestion()
      modifies this
      ensures board == old(board) && currentPlayer == old(currentPlayer) && gameOver == old(gameOver)
      ensures winner == old(winner) && animating == old(animating)
      ensures aiPlayer == old(aiPlayer) && gameStarted == old(gameStarted)
      ensures suggestedCol == Suggestion()
    {
      if gameOver || aiPlayer != Some(currentPlayer) || !gameStarted {
        suggestedCol := None;
        return;
      }
      var bestCol := GetBestMove(board);
      suggestedCol := bestCol;
    }

    /**
     * `switch_player`: once the game is over nothing changes; otherwise the
     * other player is to move, and the suggestion is recomputed for them.
     */
    method SwitchPlayer()
      modifies this
      ensures board == old(board) && gameOver == old(gameOver) && winner == old(winner)
      ensures animating == old(animating) && aiPlayer == old(aiPlayer) && gameStarted == old(gameStarted)
      ensures old(gameOver) ==> currentPlayer == old(currentPlayer) && suggestedCol == old(suggestedCol)
      ensures !old(gameOver) ==> currentPlayer == Opponent(old(currentPlayer)) && suggestedCol == Suggestion()
    {
      if !gameOver {
        currentPlayer := Opponent(currentPlayer);
        if aiPlayer == Some(currentPlayer) {
          CalculateSuggestion();
        } else {
          suggestedCol := None;
        }
      }
    }

    /**
     * `start_game(ai_color)`: records the AI's colour and starts the game; if
     * the AI is to move, its suggestion is computed at once.
     */
    method StartGame(aiColor: Player)
      modifies this
      ensures board == old(board) && currentPlayer == old(currentPlayer) && gameOver == old(gameOver)
      ensures winner == old(winner) && animating == old(animating)
      ensures aiPlayer == Some(aiColor) && gameStarted
      ensures suggestedCol == if aiColor == currentPlayer then Suggestion() else old(suggestedCol)
    {
      aiPlayer := Some(aiColor);
      gameStarted := true;
      if aiPlayer == Some(currentPlayer) {
        CalculateSuggestion();
      }
    }

    /**
     * `make_move(col)` followed by the end of the drop animation. An illegal
     * column changes nothing and yields false. Otherwise the current player's
     * piece lands in the lowest empty cell of `col`, the winner check runs on
     * the new board, the turn passes unless the game is now over, and the
     * result is true.
     */
    method MakeMove(col: int) returns (ok: bool)
      requires Valid()
      modifies this
      ensures Valid()
      ensures !Boards.IsValidMove(old(board), col) ==>
                !ok && board == old(board) && currentPlayer == old(currentPlayer) &&
                gameOver == old(gameOver) && winner == old(winner) && suggestedCol == old(suggestedCol) &&
                animating == old(animating)
      ensures Boards.IsValidMove(old(board), col) ==>
                ok && board == Drop(old(board), col, old(currentPlayer)) &&
                Pieces(board) == Pieces(old(board)) + 1 && !animating
      ensures Boards.IsValidMove(old(board), col) && WinnerOf(board).Some? ==>
                gameOver && winner == WinnerOf(board) && currentPlayer == old(currentPlayer)
      ensures Boards.IsValidMove(old(board), col) && WinnerOf(board).None? && IsBoardFull(board) ==>
                gameOver && winner == Some(0) && currentPlayer == old(currentPlayer)
      ensures Boards.IsValidMove(old(board), col) && WinnerOf(board).None? && !IsBoardFull(board) ==>
                gameOver == old(gameOver) && winner == old(winner)
      ensures Boards.IsValidMove(old(board), col) && gameOver ==>
                currentPlayer == old(currentPlayer) && suggestedCol == old(suggestedCol)
      ensures Boards.IsValidMove(old(board), col) && !gameOver ==>
                currentPlayer == Opponent(old(currentPlayer)) && suggestedCol == Suggestion()
      ensures aiPlayer == old(aiPlayer) && gameStarted == old(gameStarted)
    {
      if !IsValidMove(col) {
        return false;
      }
      var row := -1;
      var r := 5;
      while r >= 0
        invariant -1 <= r <= 5
        invariant row == -1
        invariant LowestEmpty(board, col) == LowestEmptyFrom(board, col, r)
      {
        if board[r][col] == 0 {
          row := r;
          break;
        }
        r := r - 1;
      }
      if row == -1 {
        return false;
      }
      DropIntoOpenColumn(board, col, currentPlayer);
      animating := true;
      board := board[row := board[row][col := currentPlayer]];
      CheckWinner();
      SwitchPlayer();
      animating := false;
      return true;
    }
  }
}
