/**
 * The browser game: the player places a knight on any square, then moves it
 * square by square, never landing on a visited square. An open tour is won
 * once every square is visited; a closed tour also needs the knight to end a
 * knight move away from where it started. A move after which no move is
 * possible ends the game. Moves can be undone, and won games are recorded on
 * the leaderboard.
 */
module CavaloGame {
  import opened Wrappers
  import opened Sequences
  import opened KnightMoves
  import opened Leaderboard
  import opened GameRules

  /** What a click on a square led to. */
  datatype Outcome = Ignored | Placed | Moved | Won | Lost

  function ListOr(board: map<string, seq<Entry>>, key: string): seq<Entry>
  {
    if key in board then board[key] else []
  }

  class CavaloSolitario {
    var boardSize: nat
    var tourType: TourType
    var currentPosition: Option<Pos>
    var visited: set<Pos>
    var moveHistory: seq<HistoryEntry>
    var moveCount: int
    var gameActive: bool
    var leaderboard: map<string, seq<Entry>>

    /**
     * The history is a knight's path over distinct squares of the board that
     * ends at the knight; the visited set holds exactly its squares; move
     * numbers start at 1, increase, and never pass `moveCount + 1`.
     */
    ghost predicate Valid()
      reads this`boardSize, this`currentPosition, this`visited, this`moveHistory, this`moveCount
    {
      GameState(boardSize, currentPosition, visited, moveHistory, moveCount)
    }

    /** `visited.size == moveHistory.length`, and every visited square is on the board. */
    lemma VisitedMatchesHistory()
      requires Valid()
      ensures |visited| == |moveHistory|
      ensures visited <= Cells(boardSize)
      ensures moveHistory == [] <==> visited == {}
    {
      GameStateSize(boardSize, currentPosition, visited, moveHistory, moveCount);
    }

    /** The constructor: an 8-by-8 open game that has not started, with the records loaded from storage. */
    constructor (saved: map<string, seq<Entry>>)
      ensures Valid()
      ensures boardSize == 8 && tourType == Open && !gameActive
      ensures currentPosition == None && visited == {} && moveHistory == [] && moveCount == 0
      ensures leaderboard == saved
    {
      boardSize := 8;
      tourType := Open;
      currentPosition := None;
      visited := {};
      moveHistory := [];
      moveCount := 0;
      gameActive := false;
      leaderboard := saved;
    }

    /** `startNewGame` with the selected size and tour type. */
    method StartNewGame(size: nat, tour: TourType)
      requires size >= 1
      modifies this
      ensures Valid()
      ensures boardSize == size && tourType == tour && gameActive
      ensures currentPosition == None && visited == {} && moveHistory == [] && moveCount == 0
      ensures leaderboard == old(leaderboard)
    {
      boardSize := size;
      tourType := tour;
      gameActive := true;
      moveCount := 0;
      visited := {};
      moveHistory := [];
      currentPosition := None;
    }

    /** `getPossibleMoves`: the loop over the eight knight moves. */
    method GetPossibleMoves(row: int, col: int) returns (moves: seq<Pos>)
      ensures moves == PossibleMoves(boardSize, visited, Pos(row, col))
    {
      moves := [];
      for i := 0 to MoveCount
        invariant moves == MovesBefore(boardSize, visited, Pos(row, col), i)
      {
        var newPos := Pos(row + Deltas[i].0, col + Deltas[i].1);
        if InBounds(boardSize, newPos) && newPos !in visited {
          moves := moves + [newPos];
        }
      }
    }

    /** `checkWinCondition` as written: the closed test looks for the start square among the unvisited ones. */
    function CheckWinConditionAsWritten(): bool
      reads this`boardSize, this`tourType, this`currentPosition, this`visited, this`moveHistory
    {
      var total := boardSize * boardSize;
      match tourType
      case Closed =>
        if |visited| == total then
          && currentPosition.Some? && moveHistory != []
          && At(moveHistory[0]) in PossibleMoves(boardSize, visited, currentPosition.value)
        else false
      case Open => |visited| == total
    }

    /**
     * As written, a closed tour can never be won: once every square is
     * visited, the start square is visited too, and the possible moves never
     * include a visited square. For an open tour both checks agree.
     */
    lemma ClosedTourNeverWins()
      requires Valid()
      ensures tourType == Closed ==> !CheckWinConditionAsWritten()
      ensures tourType == Open ==> CheckWinConditionAsWritten() == CheckWinCondition()
    {
      VisitedMatchesHistory();
      if tourType == Closed && |visited| == boardSize * boardSize {
        var start := At(moveHistory[0]);
        VisitedHas(moveHistory, 0);
        PossibleMovesAre(boardSize, visited, currentPosition.value, start);
      }
    }

    /** `checkWinCondition` as intended: every square visited and, for a closed tour, the start a knight move away. */
    function CheckWinCondition(): bool
      reads this`boardSize, this`tourType, this`currentPosition, this`visited, this`moveHistory
    {
      && |visited| == boardSize * boardSize
      && (tourType == Closed ==>
            && currentPosition.Some? && moveHistory != []
            && IsKnightMove(currentPosition.value, At(moveHistory[0])))
    }

    /**
     * A game is won exactly when the history covers the whole board and, for
     * a closed tour, its last square is a knight move from its first.
     */
    lemma WinMeansCompleteTour()
      requires Valid()
      ensures CheckWinCondition() <==>
        && moveHistory != []
        && Visited(moveHistory) == Cells(boardSize)
        && (tourType == Closed ==> IsKnightMove(At(moveHistory[|moveHistory| - 1]), At(moveHistory[0])))
    {
      VisitedMatchesHistory();
      FullSubset(visited, boardSize);
      assert Pos(0, 0) in Cells(boardSize);
    }

    /** `getPossibleMoves(move.row, move.col).length`, the count Warnsdorff's rule compares. */
    method OnwardCount(p: Pos) returns (count: nat)
      ensures count == Onward(boardSize, visited, p)
      ensures count <= MoveCount
    {
      var moves := GetPossibleMoves(p.row, p.col);
      PossibleMovesAre(boardSize, visited, p, p);
      count := |moves|;
    }

    /** `getBestMove` (Warnsdorff's rule): the first candidate with the fewest onward moves, or none for no candidates. */
    method GetBestMove(candidates: seq<Pos>) returns (best: Option<Pos>)
      ensures best.None? <==> candidates == []
      ensures best.Some? ==> exists k :: FirstFewest(boardSize, visited, candidates, k) && candidates[k] == best.value
    {
      best := None;
      var minNextMoves: nat := 0;
      ghost var n, squares := boardSize, visited;
      ghost var bestIndex := -1;
      ghost var counts: seq<nat> := [];
      for i := 0 to |candidates|
        invariant |counts| == i
        invariant forall j {:trigger Onward(n, squares, candidates[j])} :: 0 <= j < i ==> counts[j] == Onward(n, squares, candidates[j])
        invariant best.None? <==> i == 0
        invariant best.Some? ==>
          && 0 <= bestIndex < i && best.value == candidates[bestIndex] && minNextMoves == counts[bestIndex]
          && (forall j :: 0 <= j < i ==> minNextMoves <= counts[j])
          && (forall j :: 0 <= j < bestIndex ==> counts[j] > minNextMoves)
      {
        var nextMoves := OnwardCount(candidates[i]);
        counts := counts + [nextMoves];
        if best.None? || nextMoves < minNextMoves {
          minNextMoves := nextMoves;
          best := Some(candidates[i]);
          bestIndex := i;
        }
      }
      if best.Some? {
        assert FirstFewest(boardSize, visited, candidates, bestIndex);
      }
    }

    /** `placeKnight`: the first square of the tour, with move number 1. */
    method PlaceKnight(row: int, col: int)
      requires Valid() && currentPosition.None? && InBounds(boardSize, Pos(row, col))
      modifies this`currentPosition, this`visited, this`moveHistory
      ensures unchanged(this`boardSize, this`tourType, this`moveCount)
      ensures Valid()
      ensures currentPosition == Some(Pos(row, col)) && visited == {Pos(row, col)}
      ensures moveHistory == [HistoryEntry(row, col, 1)]
    {
      GamePlace(boardSize, visited, moveHistory, moveCount, Pos(row, col));
      currentPosition := Some(Pos(row, col));
      visited := visited + {Pos(row, col)};
      moveHistory := moveHistory + [HistoryEntry(row, col, 1)];
    }

    /**
     * `saveToLeaderboard`: the list under this size and tour type gets the
     * new record, is sorted by time then moves, and keeps its best five.
     */
    method SaveToLeaderboard(timeElapsed: nat, moves: int, date: string)
      modifies this`leaderboard
      ensures unchanged(this`boardSize, this`tourType, this`currentPosition, this`visited, this`moveHistory, this`moveCount)
      ensures leaderboard == old(leaderboard[LeaderboardKey(boardSize, tourType) :=
        AddScore(ListOr(leaderboard, LeaderboardKey(boardSize, tourType)),
                 GameEntry(timeElapsed, moves, date))])
    {
      var key := LeaderboardKey(boardSize, tourType);
      var entry := GameEntry(timeElapsed, moves, date);
      leaderboard := leaderboard[key := AddScore(ListOr(leaderboard, key), entry)];
    }

    /**
     * The first half of `moveKnight`: the knight moves to a possible square,
     * which is added to the visited set and to the history with move number
     * `moveCount + 1` after the count is incremented.
     */
    method Advance(row: int, col: int)
      requires Valid() && currentPosition.Some?
      requires Pos(row, col) in PossibleMoves(boardSize, visited, currentPosition.value)
      modifies this`currentPosition, this`visited, this`moveCount, this`moveHistory
      ensures unchanged(this`boardSize, this`tourType, this`gameActive, this`leaderboard)
      ensures Valid()
      ensures Pos(row, col) !in old(visited) && IsKnightMove(old(currentPosition.value), Pos(row, col))
      ensures currentPosition == Some(Pos(row, col)) && visited == old(visited) + {Pos(row, col)}
      ensures moveCount == old(moveCount) + 1 && moveHistory == old(moveHistory) + [HistoryEntry(row, col, moveCount + 1)]
    {
      var target := Pos(row, col);
      var entry := HistoryEntry(row, col, moveCount + 2);
      GameAdvance(boardSize, currentPosition.value, visited, moveHistory, moveCount, target);
      currentPosition := Some(target);
      visited := visited + {target};
      moveCount := moveCount + 1;
      moveHistory := moveHistory + [entry];
    }

    /** `handleVictory`: the game stops and the score enters the leaderboard. */
    method HandleVictory(timeElapsed: nat, date: string)
      modifies this`gameActive, this`leaderboard
      ensures unchanged(this`boardSize, this`tourType, this`currentPosition, this`visited, this`moveHistory, this`moveCount)
      ensures !gameActive
      ensures leaderboard == old(leaderboard[LeaderboardKey(boardSize, tourType) :=
        AddScore(ListOr(leaderboard, LeaderboardKey(boardSize, tourType)),
                 GameEntry(timeElapsed, moveCount, date))])
    {
      gameActive := false;
      SaveToLeaderboard(timeElapsed, moveCount, date);
    }

    /** `handleGameOver`: the game stops and nothing is recorded. */
    method HandleGameOver()
      modifies this`gameActive
      ensures unchanged(this`boardSize, this`tourType, this`currentPosition, this`visited, this`moveHistory, this`moveCount)
      ensures !gameActive
    {
      gameActive := false;
    }

    /**
     * The checks that close `moveKnight`, on the square the knight now
     * stands on: a win ends the game with a record, a knight with no
     * possible move ends it without one, anything else lets play go on.
     */
    method EndOfMove(timeElapsed: nat, date: string) returns (outcome: Outcome)
      requires Valid() && currentPosition.Some?
      modifies this`gameActive, this`leaderboard
      ensures unchanged(this`boardSize, this`tourType, this`currentPosition, this`visited, this`moveHistory, this`moveCount)
      ensures outcome == Won <==> old(CheckWinConditionAsWritten())
      ensures outcome == Lost <==> !old(CheckWinConditionAsWritten()) && old(PossibleMoves(boardSize, visited, currentPosition.value)) == []
      ensures outcome == Moved <==> !old(CheckWinConditionAsWritten()) && old(PossibleMoves(boardSize, visited, currentPosition.value)) != []
      ensures outcome == Won ==> !gameActive && leaderboard == old(leaderboard[LeaderboardKey(boardSize, tourType) :=
        AddScore(ListOr(leaderboard, LeaderboardKey(boardSize, tourType)),
                 GameEntry(timeElapsed, moveCount, date))])
      ensures outcome == Lost ==> !gameActive && leaderboard == old(leaderboard)
      ensures outcome == Moved ==> gameActive == old(gameActive) && leaderboard == old(leaderboard)
    {
      if CheckWinConditionAsWritten() {
        outcome := Won;
        HandleVictory(timeElapsed, date);
      } else {
        var next := GetPossibleMoves(currentPosition.value.row, currentPosition.value.col);
        if |next| == 0 {
          outcome := Lost;
          HandleGameOver();
        } else {
          outcome := Moved;
        }
      }
    }

    /**
     * `moveKnight` followed by the end-of-game checks: after the move a win
     * stops the game and records the score; otherwise a knight with no
     * possible move loses. The win check is `checkWinCondition` as the code
     * computes it, so a closed tour is never won.
     */
    method MoveKnight(row: int, col: int, timeElapsed: nat, date: string) returns (outcome: Outcome)
      requires Valid() && currentPosition.Some?
      requires Pos(row, col) in PossibleMoves(boardSize, visited, currentPosition.value)
      modifies this`currentPosition, this`visited, this`moveCount, this`moveHistory, this`gameActive, this`leaderboard
      ensures unchanged(this`boardSize, this`tourType)
      ensures Valid()
      ensures Pos(row, col) !in old(visited) && IsKnightMove(old(currentPosition.value), Pos(row, col))
      ensures currentPosition == Some(Pos(row, col)) && visited == old(visited) + {Pos(row, col)}
      ensures moveCount == old(moveCount) + 1 && moveHistory == old(moveHistory) + [HistoryEntry(row, col, moveCount + 1)]
      ensures outcome == Won <==> CheckWinConditionAsWritten()
      ensures outcome == Lost <==> !CheckWinConditionAsWritten() && PossibleMoves(boardSize, visited, Pos(row, col)) == []
      ensures outcome == Moved <==> !CheckWinConditionAsWritten() && PossibleMoves(boardSize, visited, Pos(row, col)) != []
      ensures tourType == Closed ==> outcome != Won
      ensures outcome == Won ==> !gameActive && leaderboard == old(leaderboard[LeaderboardKey(boardSize, tourType) :=
        AddScore(ListOr(leaderboard, LeaderboardKey(boardSize, tourType)),
                 GameEntry(timeElapsed, moveCount + 1, date))])
      ensures outcome == Lost ==> !gameActive && leaderboard == old(leaderboard)
      ensures outcome == Moved ==> gameActive == old(gameActive) && leaderboard == old(leaderboard)
    {
      Advance(row, col);
      ClosedTourNeverWins();
      ghost var won := CheckWinConditionAsWritten();
      outcome := EndOfMove(timeElapsed, date);
      assert won == CheckWinConditionAsWritten();
    }

    /**
     * `handleCellClick`: ignored while no game is running; the first click
     * places the knight; later clicks move it only onto a possible square.
     */
    method HandleCellClick(row: int, col: int, timeElapsed: nat, date: string) returns (outcome: Outcome)
      requires Valid() && InBounds(boardSize, Pos(row, col))
      modifies this`currentPosition, this`visited, this`moveCount, this`moveHistory, this`gameActive, this`leaderboard
      ensures Valid()
      ensures !old(gameActive) ==> outcome == Ignored
      ensures outcome == Placed <==> old(gameActive) && old(currentPosition).None?
      ensures outcome == Placed ==>
        && currentPosition == Some(Pos(row, col)) && visited == {Pos(row, col)}
        && moveHistory == [HistoryEntry(row, col, 1)]
        && unchanged(this`moveCount, this`gameActive, this`leaderboard)
      ensures outcome in {Moved, Won, Lost} <==>
        old(gameActive) && old(currentPosition).Some? && Pos(row, col) in old(PossibleMoves(boardSize, visited, currentPosition.value))
      ensures outcome in {Moved, Won, Lost} ==>
        && currentPosition == Some(Pos(row, col)) && visited == old(visited) + {Pos(row, col)}
        && moveCount == old(moveCount) + 1 && moveHistory == old(moveHistory) + [HistoryEntry(row, col, moveCount + 1)]
      ensures outcome in {Moved, Won, Lost} ==>
        && (outcome == Won <==> CheckWinConditionAsWritten())
        && (outcome == Lost <==> !CheckWinConditionAsWritten() && PossibleMoves(boardSize, visited, Pos(row, col)) == [])
      ensures outcome == Won ==> !gameActive && leaderboard == old(leaderboard[LeaderboardKey(boardSize, tourType) :=
        AddScore(ListOr(leaderboard, LeaderboardKey(boardSize, tourType)),
                 GameEntry(timeElapsed, moveCount + 1, date))])
      ensures outcome == Lost ==> !gameActive && leaderboard == old(leaderboard)
      ensures outcome == Moved ==> gameActive && leaderboard == old(leaderboard)
      ensures tourType == Closed ==> outcome != Won
      ensures outcome == Ignored ==>
        unchanged(this`currentPosition, this`visited, this`moveHistory, this`moveCount, this`gameActive, this`leaderboard)
    {
      if !gameActive {
        return Ignored;
      }
      if currentPosition.None? {
        PlaceKnight(row, col);
        outcome := Placed;
      } else {
        var possible := GetPossibleMoves(currentPosition.value.row, currentPosition.value.col);
        if Pos(row, col) in possible {
          outcome := MoveKnight(row, col, timeElapsed, date);
        } else {
          outcome := Ignored;
        }
      }
    }

    /**
     * `undoMove`: with at least two squares in the history the last one is
     * dropped from the history and from the visited set, and the knight goes
     * back to the square before it; the move count is not decremented.
     */
    method UndoMove()
      requires Valid()
      modifies this`currentPosition, this`visited, this`moveHistory
      ensures Valid()
      ensures |old(moveHistory)| <= 1 ==>
        currentPosition == old(currentPosition) && visited == old(visited) && moveHistory == old(moveHistory)
      ensures |old(moveHistory)| > 1 ==>
        && moveHistory == old(moveHistory)[..|old(moveHistory)| - 1]
        && visited == old(visited) - {At(old(moveHistory)[|old(moveHistory)| - 1])}
        && |visited| == |old(visited)| - 1
        && currentPosition == Some(At(moveHistory[|moveHistory| - 1]))
    {
      if |moveHistory| <= 1 {
        return;
      }
      var undone := moveHistory[|moveHistory| - 1];
      GameRetract(boardSize, currentPosition, visited, moveHistory, moveCount);
      moveHistory := moveHistory[..|moveHistory| - 1];
      visited := visited - {At(undone)};
      var lastMove := moveHistory[|moveHistory| - 1];
      currentPosition := Some(At(lastMove));
    }

    /** The cell code `getAIHint` sends: 2 on the knight, 1 on other visited squares, 0 elsewhere. */
    function CellCode(p: Pos): int
      reads this`currentPosition, this`visited
    {
      if currentPosition == Some(p) then 2 else if p in visited then 1 else 0
    }

    /** The grid-building loops of `getAIHint`. */
    method EncodeState() returns (state: seq<seq<int>>)
      ensures |state| == boardSize
      ensures forall r :: 0 <= r < boardSize ==> |state[r]| == boardSize
      ensures forall r, c :: 0 <= r < boardSize && 0 <= c < boardSize ==> state[r][c] == CellCode(Pos(r, c))
    {
      state := [];
      for r := 0 to boardSize
        invariant |state| == r
        invariant forall r' :: 0 <= r' < r ==> |state[r']| == boardSize
        invariant forall r', c :: 0 <= r' < r && 0 <= c < boardSize ==> state[r'][c] == CellCode(Pos(r', c))
      {
        var rowState := [];
        for c := 0 to boardSize
          invariant |rowState| == c
          invariant forall c' :: 0 <= c' < c ==> rowState[c'] == CellCode(Pos(r, c'))
        {
          var cellValue := 0;
          if Pos(r, c) in visited {
            cellValue := 1;
          }
          if currentPosition.Some? && currentPosition.value.row == r && currentPosition.value.col == c {
            cellValue := 2;
          }
          rowState := rowState + [cellValue];
        }
        state := state + [rowState];
      }
    }

    /** `getAIHint` asks the server only with a knight on a 5-by-5 board; the request carries the encoded grid. */
    method AIHintRequest() returns (request: Option<seq<seq<int>>>)
      ensures request.Some? <==> currentPosition.Some? && boardSize == 5
      ensures request.Some? ==> |request.value| == 5
      ensures request.Some? ==> forall r, c :: 0 <= r < 5 && 0 <= c < 5 ==> |request.value[r]| == 5 && request.value[r][c] == CellCode(Pos(r, c))
    {
      if currentPosition.None? || boardSize != 5 {
        return None;
      }
      var state := EncodeState();
      request := Some(state);
    }
  }

  /**
   * A player who completes a closed tour (every square visited, the last a
   * knight move from the first) in a closed game: the intended check declares
   * the win, the check as written does not.
   */
  lemma ClosedTourRejected(game: CavaloSolitario)
    requires game.Valid() && game.tourType == Closed
    requires Visited(game.moveHistory) == Cells(game.boardSize)
    requires game.moveHistory != []
    requires IsKnightMove(At(game.moveHistory[|game.moveHistory| - 1]), At(game.moveHistory[0]))
    ensures game.CheckWinCondition() && !game.CheckWinConditionAsWritten()
  {
    game.WinMeansCompleteTour();
    game.ClosedTourNeverWins();
  }
}
