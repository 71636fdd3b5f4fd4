/**
 * The training environment: a deterministic state machine over an n-by-n
 * board whose cells hold 0 (empty), 1 (visited) or 2 (the knight's square).
 * An illegal move is penalised but does not end the episode; a legal move
 * earns a reward that grows with progress, and the episode ends when every
 * square is visited (win) or when the knight has no legal move left (stuck).
 */
module KnightEnv {
  import opened KnightMoves
  import opened Sequences

  /** The `status` entry of the info dictionary that `step` returns; `NoStatus` is the empty dictionary. */
  datatype Status = NoStatus | InvalidMove | Win | Stuck

  /** The three observation channels, each an n-by-n grid of 0.0 and 1.0. */
  datatype Observation = Observation(position: array2<real>, visited: array2<real>, moves: array2<real>)

  /** Reward of a legal move that neither wins nor gets stuck: grows with the progress made before it. */
  function ProgressReward(visited: int, total: nat): (r: real)
    requires total > 0
    ensures 0 <= visited < total ==> 1.0 <= r < 6.0
  {
    1.0 + (visited as real / total as real) * 5.0
  }

  /** Reward of the move that completes the tour, written as the source writes it. */
  function WinReward(visited: int, total: nat): (r: real)
    ensures visited == total ==> r == 0.0
    ensures visited < total ==> r < 0.0
  {
    -1.0 * (total - visited) as real
  }

  /** What the network reads: `np.stack(channels, axis=-1)`, indexed by row, column, then channel. */
  type State = seq<seq<seq<real>>>

  /** The observation stacked into the network's input shape (n, n, 3). */
  function Stacked(obs: Observation): (s: State)
    reads obs.position, obs.visited, obs.moves
    requires obs.visited.Length0 == obs.moves.Length0 == obs.position.Length0
    requires obs.visited.Length1 == obs.moves.Length1 == obs.position.Length1
    ensures |s| == obs.position.Length0
    ensures forall r :: 0 <= r < |s| ==> |s[r]| == obs.position.Length1
    ensures forall r, c :: 0 <= r < |s| && 0 <= c < obs.position.Length1 ==>
      s[r][c] == [obs.position[r, c], obs.visited[r, c], obs.moves[r, c]]
  {
    seq(obs.position.Length0, r requires 0 <= r < obs.position.Length0 reads obs.position, obs.visited, obs.moves =>
      seq(obs.position.Length1, c requires 0 <= c < obs.position.Length1 reads obs.position, obs.visited, obs.moves =>
        [obs.position[r, c], obs.visited[r, c], obs.moves[r, c]]))
  }

  class KnightTourEnv {
    const boardSize: nat
    const totalSquares: nat
    var board: array2<int>
    var currentPos: Pos
    var path: seq<Pos>
    var visitedCount: int

    /** The board's shape: n rows of n cells, n at least 1. */
    ghost predicate Shaped()
      reads this`board
    {
      && boardSize >= 1
      && totalSquares == boardSize * boardSize && totalSquares >= 1
      && board.Length0 == boardSize && board.Length1 == boardSize
    }

    /** The shape facts every operation relies on: a shaped board with the knight on it. */
    ghost predicate Wf()
      reads this`board, this`currentPos
    {
      Shaped() && InBounds(boardSize, currentPos)
    }

    /** `_is_valid_move`: the square is on the board and empty. */
    predicate IsValidMove(p: Pos)
      reads this`board, this`currentPos, board
      requires Wf()
    {
      InBounds(boardSize, p) && board[p.row, p.col] == 0
    }

    /** Knight move `i` is legal from the knight's square. */
    predicate Legal(i: nat)
      reads this`board, this`currentPos, board
      requires Wf() && i < MoveCount
    {
      IsValidMove(Dest(currentPos, i))
    }

    predicate AnyLegal()
      reads this`board, this`currentPos, board
      requires Wf()
    {
      exists i :: 0 <= i < MoveCount && Legal(i)
    }

    /** Some legal move lands on `p`. */
    predicate LegalDest(p: Pos)
      reads this`board, this`currentPos, board
      requires Wf()
    {
      exists i :: 0 <= i < MoveCount && Legal(i) && Dest(currentPos, i) == p
    }

    /** The squares whose cell is not empty. */
    ghost function Marked(): set<Pos>
      reads this`board, board
      requires Shaped()
    {
      set r, c | 0 <= r < boardSize && 0 <= c < boardSize && board[r, c] != 0 :: Pos(r, c)
    }

    lemma MarkedMember(p: Pos)
      requires Shaped()
      ensures p in Marked() <==> InBounds(boardSize, p) && board[p.row, p.col] != 0
    {
      if InBounds(boardSize, p) && board[p.row, p.col] != 0 {
        assert Pos(p.row, p.col) in Marked();
      }
    }

    /** Every cell holds 0, 1 or 2. */
    ghost predicate CellCodes()
      reads this`board, board
      requires Shaped()
    {
      forall r, c :: 0 <= r < boardSize && 0 <= c < boardSize ==> 0 <= board[r, c] <= 2
    }

    /** No cell other than the knight's square holds 2. */
    ghost predicate SoleKnight()
      reads this`board, this`currentPos, board
      requires Wf()
    {
      forall r, c :: 0 <= r < boardSize && 0 <= c < boardSize && board[r, c] == 2 ==> Pos(r, c) == currentPos
    }

    /**
     * Cells hold 0, 1 or 2, the knight's square holds 2, and the visited
     * count is the number of non-empty cells. The server's decoding of a
     * posted board establishes this, and `step` keeps it.
     */
    ghost predicate Consistent()
      reads this`board, this`currentPos, board, this`visitedCount
    {
      && Wf()
      && CellCodes()
      && board[currentPos.row, currentPos.col] == 2
      && visitedCount == |Marked()|
    }

    /**
     * The tour invariant kept by `reset` and `step`: exactly one cell holds 2
     * and it is the knight's square; the path ends there, has no repeated
     * square, joins consecutive squares by knight moves, covers exactly the
     * non-empty cells, and its length is the visited count.
     */
    ghost predicate Valid()
      reads this`board, this`currentPos, board, this`path, this`visitedCount
    {
      && Wf()
      && CellCodes()
      && SoleKnight()
      && board[currentPos.row, currentPos.col] == 2
      && |path| > 0 && path[|path| - 1] == currentPos
      && Distinct(path)
      && KnightPath(path)
      && Elements(path) == Marked()
      && visitedCount == |path|
    }

    /** The tour invariant implies the counting invariant. */
    lemma ValidIsConsistent()
      requires Valid()
      ensures Consistent()
    {
      DistinctCard(path);
    }

    /** The visited count never exceeds the board, and reaches it exactly when no cell is empty. */
    lemma WinIffFull()
      requires Consistent()
      ensures visitedCount <= totalSquares
      ensures visitedCount == totalSquares <==>
        forall r, c :: 0 <= r < boardSize && 0 <= c < boardSize ==> board[r, c] != 0
    {
      assert Marked() <= Cells(boardSize);
      FullSubset(Marked(), boardSize);
      if visitedCount == totalSquares {
        forall r, c | 0 <= r < boardSize && 0 <= c < boardSize ensures board[r, c] != 0 {
          assert Pos(r, c) in Cells(boardSize);
          MarkedMember(Pos(r, c));
        }
      }
      if forall r, c :: 0 <= r < boardSize && 0 <= c < boardSize ==> board[r, c] != 0 {
        forall p | p in Cells(boardSize) ensures p in Marked() {
          MarkedMember(p);
        }
      }
    }

    /** What `_get_observation` returns for the current state. */
    ghost predicate IsObservation(obs: Observation)
      reads this`board, this`currentPos, board, obs.position, obs.visited, obs.moves
      requires Wf()
    {
      var n := boardSize;
      && obs.position.Length0 == n && obs.position.Length1 == n
      && obs.visited.Length0 == n && obs.visited.Length1 == n
      && obs.moves.Length0 == n && obs.moves.Length1 == n
      && (forall r, c :: 0 <= r < n && 0 <= c < n ==>
            obs.position[r, c] == (if Pos(r, c) == currentPos then 1.0 else 0.0))
      && (forall r, c :: 0 <= r < n && 0 <= c < n ==>
            obs.visited[r, c] == (if board[r, c] == 1 then 1.0 else 0.0))
      && (forall r, c :: 0 <= r < n && 0 <= c < n ==>
            obs.moves[r, c] == (if LegalDest(Pos(r, c)) then 1.0 else 0.0))
    }

    constructor (boardSize: nat)
      requires boardSize >= 1
      ensures this.boardSize == boardSize && Valid() && fresh(board)
      ensures currentPos == Pos(boardSize / 2, boardSize / 2) && path == [currentPos] && visitedCount == 1
      ensures forall r, c :: 0 <= r < boardSize && 0 <= c < boardSize ==>
        board[r, c] == (if Pos(r, c) == currentPos then 2 else 0)
    {
      this.boardSize := boardSize;
      totalSquares := boardSize * boardSize;
      board := new int[0, 0];
      currentPos := Pos(0, 0);
      path := [];
      visitedCount := 0;
      new;
      var obs := Reset();
    }

    /**
     * `reset`: a fresh zeroed board with the knight on the centre square
     * (n/2, n/2), which is the one visited square. No randomness is involved.
     */
    method Reset() returns (obs: Observation)
      requires boardSize >= 1 && totalSquares == boardSize * boardSize
      modifies this
      ensures fresh(board) && Valid()
      ensures currentPos == Pos(boardSize / 2, boardSize / 2) && path == [currentPos] && visitedCount == 1
      ensures forall r, c :: 0 <= r < boardSize && 0 <= c < boardSize ==>
        board[r, c] == (if Pos(r, c) == currentPos then 2 else 0)
      ensures IsObservation(obs) && fresh(obs.position) && fresh(obs.visited) && fresh(obs.moves)
    {
      board := new int[boardSize, boardSize]((r, c) => 0);
      var center := boardSize / 2;
      currentPos := Pos(center, center);
      board[center, center] := 2;
      path := [currentPos];
      visitedCount := 1;
      forall p ensures p in Marked() <==> p == currentPos {
        MarkedMember(p);
      }
      assert Elements(path) == {currentPos};
      obs := GetObservation();
    }

    /** `_get_valid_moves_mask`: entry i is true exactly when move i lands on an empty square of the board. */
    method GetValidMovesMask() returns (mask: array<bool>)
      requires Wf()
      ensures fresh(mask) && mask.Length == MoveCount
      ensures forall i :: 0 <= i < MoveCount ==> mask[i] == Legal(i)
    {
      mask := new bool[MoveCount](i => false);
      for i := 0 to MoveCount
        modifies mask
        invariant forall j :: 0 <= j < i ==> (mask[j] <==> Legal(j))
        invariant forall j :: i <= j < MoveCount ==> !mask[j]
      {
        var newPos := Pos(currentPos.row + Deltas[i].0, currentPos.col + Deltas[i].1);
        if IsValidMove(newPos) {
          mask[i] := true;
        }
      }
    }

    /** `_get_valid_moves_board`: 1.0 exactly on the squares that a legal move reaches. */
    method GetValidMovesBoard() returns (moves: array2<real>)
      requires Wf()
      ensures fresh(moves) && moves.Length0 == boardSize && moves.Length1 == boardSize
      ensures forall r, c :: 0 <= r < boardSize && 0 <= c < boardSize ==>
        moves[r, c] == (if LegalDest(Pos(r, c)) then 1.0 else 0.0)
    {
      moves := new real[boardSize, boardSize]((r, c) => 0.0);
      var mask := GetValidMovesMask();
      for i := 0 to MoveCount
        modifies moves
        invariant forall r, c :: 0 <= r < boardSize && 0 <= c < boardSize ==>
          moves[r, c] == (if LegalBefore(Pos(r, c), i) then 1.0 else 0.0)
      {
        if mask[i] {
          var pos := Pos(currentPos.row + Deltas[i].0, currentPos.col + Deltas[i].1);
          moves[pos.row, pos.col] := 1.0;
        }
      }
      forall r, c | 0 <= r < boardSize && 0 <= c < boardSize
        ensures LegalBefore(Pos(r, c), MoveCount) <==> LegalDest(Pos(r, c))
      {
        LegalBeforeSome(Pos(r, c), MoveCount);
      }
    }

    /** Some of the first `k` moves is legal and lands on `p`. */
    ghost predicate LegalBefore(p: Pos, k: nat)
      reads this`board, this`currentPos, board
      requires Wf() && k <= MoveCount
    {
      k > 0 && (LegalBefore(p, k - 1) || (Legal(k - 1) && Dest(currentPos, k - 1) == p))
    }

    lemma {:induction false} LegalBeforeSome(p: Pos, k: nat)
      requires Wf() && k <= MoveCount
      ensures LegalBefore(p, k) <==> exists j :: 0 <= j < k && Legal(j) && Dest(currentPos, j) == p
    {
      if k > 0 {
        LegalBeforeSome(p, k - 1);
        if exists j :: 0 <= j < k && Legal(j) && Dest(currentPos, j) == p {
          var j :| 0 <= j < k && Legal(j) && Dest(currentPos, j) == p;
          if j < k - 1 {
            assert LegalBefore(p, k - 1);
          }
        }
      }
    }

    /** `_has_valid_moves`: some move lands on an empty square of the board. */
    method HasValidMoves() returns (b: bool)
      requires Wf()
      ensures b == AnyLegal()
    {
      var mask := GetValidMovesMask();
      b := exists i :: 0 <= i < MoveCount && mask[i];
    }

    /** `_get_observation`: knight one-hot, visited (value 1) cells, and legal destinations. */
    method GetObservation() returns (obs: Observation)
      requires Wf()
      ensures IsObservation(obs) && fresh(obs.position) && fresh(obs.visited) && fresh(obs.moves)
    {
      var position := new real[boardSize, boardSize]((r, c) => 0.0);
      position[currentPos.row, currentPos.col] := 1.0;
      var visited := new real[boardSize, boardSize];
      for r := 0 to boardSize
        modifies visited
        invariant forall r', c :: 0 <= r' < r && 0 <= c < boardSize ==>
          visited[r', c] == (if board[r', c] == 1 then 1.0 else 0.0)
      {
        for c := 0 to boardSize
          modifies visited
          invariant forall r', c' :: 0 <= r' < r && 0 <= c' < boardSize ==>
            visited[r', c'] == (if board[r', c'] == 1 then 1.0 else 0.0)
          invariant forall c' :: 0 <= c' < c ==> visited[r, c'] == (if board[r, c'] == 1 then 1.0 else 0.0)
        {
          visited[r, c] := if board[r, c] == 1 then 1.0 else 0.0;
        }
      }
      var moves := GetValidMovesBoard();
      obs := Observation(position, visited, moves);
    }

    /**
     * `step`. An illegal action (off the board or onto a non-empty cell)
     * costs -2.0 and changes nothing. A legal one marks the old square
     * visited, moves the knight, extends the path and the count, and earns
     * 1 + (visited before / total) * 5; completing the board instead ends
     * the episode with the reward -1.0 * (total - visited), which is 0, and
     * a move after which no move is legal ends it with -10.0.
     */
    method Step(action: nat) returns (obs: Observation, reward: real, done: bool, status: Status)
      requires Wf() && action < MoveCount
      modifies this`currentPos, this`path, this`visitedCount, board
      ensures Wf() && board == old(board)
      ensures !old(Legal(action)) ==>
        && reward == -2.0 && !done && status == InvalidMove
        && unchanged(board) && currentPos == old(currentPos) && path == old(path) && visitedCount == old(visitedCount)
      ensures old(Legal(action)) ==>
        && currentPos == Dest(old(currentPos), action) && path == old(path) + [currentPos]
        && visitedCount == old(visitedCount) + 1
        && board[old(currentPos).row, old(currentPos).col] == 1 && board[currentPos.row, currentPos.col] == 2
        && (forall r, c :: 0 <= r < boardSize && 0 <= c < boardSize && Pos(r, c) != old(currentPos) && Pos(r, c) != currentPos ==>
              board[r, c] == old(board[r, c]))
      ensures old(Legal(action)) && visitedCount == totalSquares ==>
        done && status == Win && reward == WinReward(visitedCount, totalSquares) && reward == 0.0
      ensures old(Legal(action)) && visitedCount != totalSquares && !AnyLegal() ==>
        done && status == Stuck && reward == -10.0
      ensures old(Legal(action)) && visitedCount != totalSquares && AnyLegal() ==>
        && !done && status == NoStatus
        && reward == ProgressReward(old(visitedCount), totalSquares)
      ensures done <==> status == Win || status == Stuck
      ensures old(Valid()) ==> Valid()
      ensures old(Consistent()) ==> Consistent()
      ensures IsObservation(obs) && fresh(obs.position) && fresh(obs.visited) && fresh(obs.moves)
    {
      reward, done, status := Transition(action);
      obs := GetObservation();
    }

    /** The part of `Step` before the observation is built; its contract is `Step`'s, without `obs`. */
    method Transition(action: nat) returns (reward: real, done: bool, status: Status)
      requires Wf() && action < MoveCount
      modifies this`currentPos, this`path, this`visitedCount, board
      ensures Wf() && board == old(board)
      ensures !old(Legal(action)) ==>
        && reward == -2.0 && !done && status == InvalidMove
        && unchanged(board) && currentPos == old(currentPos) && path == old(path) && visitedCount == old(visitedCount)
      ensures old(Legal(action)) ==>
        && currentPos == Dest(old(currentPos), action) && path == old(path) + [currentPos]
        && visitedCount == old(visitedCount) + 1
        && board[old(currentPos).row, old(currentPos).col] == 1 && board[currentPos.row, currentPos.col] == 2
        && (forall r, c :: 0 <= r < boardSize && 0 <= c < boardSize && Pos(r, c) != old(currentPos) && Pos(r, c) != currentPos ==>
              board[r, c] == old(board[r, c]))
      ensures old(Legal(action)) && visitedCount == totalSquares ==>
        done && status == Win && reward == WinReward(visitedCount, totalSquares) && reward == 0.0
      ensures old(Legal(action)) && visitedCount != totalSquares && !AnyLegal() ==>
        done && status == Stuck && reward == -10.0
      ensures old(Legal(action)) && visitedCount != totalSquares && AnyLegal() ==>
        && !done && status == NoStatus
        && reward == ProgressReward(old(visitedCount), totalSquares)
      ensures done <==> status == Win || status == Stuck
      ensures old(Valid()) ==> Valid()
      ensures old(Consistent()) ==> Consistent()
    {
      var move := Deltas[action];
      var newPos := Pos(currentPos.row + move.0, currentPos.col + move.1);
      done := false;
      status := NoStatus;
      if !IsValidMove(newPos) {
        reward := -2.0;
        status := InvalidMove;
      } else {
        reward := ProgressReward(visitedCount, totalSquares);
        DeltasAreKnightMoves(currentPos, newPos);
        Advance(newPos);
        if visitedCount == totalSquares {
          reward := WinReward(visitedCount, totalSquares);
          done := true;
          status := Win;
        } else {
          var hasMoves := HasValidMoves();
          if !hasMoves {
            reward := -10.0;
            done := true;
            status := Stuck;
          }
        }
      }
    }

    /**
     * The legal-move branch of `step`: the old square becomes visited (1),
     * the knight's new square becomes 2, the path and the count grow by one.
     */
    method Advance(to: Pos)
      requires Wf() && IsValidMove(to) && IsKnightMove(currentPos, to)
      modifies this`currentPos, this`path, this`visitedCount, board
      ensures Wf()
      ensures currentPos == to && path == old(path) + [to] && visitedCount == old(visitedCount) + 1
      ensures board[old(currentPos).row, old(currentPos).col] == 1 && board[to.row, to.col] == 2
      ensures forall r, c :: 0 <= r < boardSize && 0 <= c < boardSize && Pos(r, c) != old(currentPos) && Pos(r, c) != to ==>
        board[r, c] == old(board[r, c])
      ensures old(Valid()) ==> Valid()
      ensures old(Consistent()) ==> Consistent()
    {
      ghost var wasValid, wasConsistent := Valid(), Consistent();
      MoveMarker(to);
      path := path + [to];
      visitedCount := visitedCount + 1;
      if wasConsistent {
        assert Marked() == old(Marked()) + {to};
        assert |Marked()| == |old(Marked())| + 1;
      }
      if wasValid {
        DistinctSnoc(old(path), to);
        KnightPathSnoc(old(path), to);
      }
    }

    /** The board half of a legal move: the old square becomes 1 and the new one 2. */
    method MoveMarker(to: Pos)
      requires Wf() && IsValidMove(to) && IsKnightMove(currentPos, to)
      modifies this`currentPos, board
      ensures Wf() && currentPos == to
      ensures board[old(currentPos).row, old(currentPos).col] == 1 && board[to.row, to.col] == 2
      ensures forall r, c :: 0 <= r < boardSize && 0 <= c < boardSize && Pos(r, c) != old(currentPos) && Pos(r, c) != to ==>
        board[r, c] == old(board[r, c])
      ensures to !in old(Marked())
      ensures old(board[currentPos.row, currentPos.col]) != 0 ==> Marked() == old(Marked()) + {to}
      ensures old(CellCodes()) ==> CellCodes()
      ensures old(SoleKnight()) ==> SoleKnight()
    {
      ghost var before := Marked();
      MarkedMember(to);
      var from := currentPos;
      board[from.row, from.col] := 1;
      currentPos := to;
      board[to.row, to.col] := 2;
      if old(board[from.row, from.col]) != 0 {
        forall p ensures p in Marked() <==> p in before || p == to {
          MarkedMember(p);
          if InBounds(boardSize, p) && old(board[p.row, p.col]) != 0 {
            assert Pos(p.row, p.col) in before;
          }
        }
      }
    }
  }

  /** The state `act` receives: `_get_observation`, stacked into the network's input shape. */
  method ObservedState(env: KnightTourEnv) returns (state: State)
    requires env.Wf()
    ensures |state| == env.boardSize
  {
    var obs := env.GetObservation();
    state := Stacked(obs);
  }
}
