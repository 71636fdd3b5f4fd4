/**
 * The hint server. A posted grid (0 empty, 1 visited, 2 knight) is checked
 * for shape, the agent for its size is loaded once and cached, the grid is
 * decoded into a fresh environment, and the agent either names one move
 * (`/predict`) or plays on until the episode ends (`/play_with_ai`).
 */
module App {
  import opened Wrappers
  import opened KnightMoves
  import opened KnightEnv
  import opened DqnAgent
  import opened ModelConfig
  import opened GameRules
  import CavaloGame

  type Grid = seq<seq<int>>

  /** One move of a reply: the action index and its offset. */
  datatype MoveRecord = MoveRecord(actionIndex: nat, dRow: int, dCol: int)

  /** A reply: an HTTP error status, one hint, or a whole playout; each success carries the model's description. */
  datatype Response =
    | Error(status: nat)
    | Hint(move: MoveRecord, info: ModelInfo)
    | Playout(moves: seq<MoveRecord>, success: bool, visitedCount: int, totalSquares: nat, info: ModelInfo)

  /** The record of action `a`, with the offset of `knight_moves[a]`. */
  function Record(a: nat): (m: MoveRecord)
    requires a < MoveCount
    ensures m.actionIndex == a && Dest(Pos(0, 0), a) == Pos(m.dRow, m.dCol)
  {
    MoveRecord(a, Deltas[a].0, Deltas[a].1)
  }

  /** What `np.array(board)` and the shape test make of the posted grid. */
  datatype Shape = Square(n: nat) | Rejected(status: nat)

  predicate Rectangular(rows: Grid)
  {
    forall i :: 0 <= i < |rows| ==> |rows[i]| == |rows[0]|
  }

  /** Every row of the grid has `n` cells, and there are `n` rows. */
  predicate SquareOf(grid: Grid, n: nat)
  {
    |grid| == n && forall i :: 0 <= i < n ==> |grid[i]| == n
  }

  /**
   * No `board` key: 400. An empty list has no second dimension and a
   * ragged one is not an integer array, so both raise inside the handler:
   * 500. A rectangular grid that is not square: 400.
   */
  function CheckShape(board: Option<Grid>): (s: Shape)
    ensures s.Square? <==> board.Some? && board.value != [] && SquareOf(board.value, |board.value|)
    ensures s.Square? ==> s.n == |board.value| >= 1 && SquareOf(board.value, s.n)
    ensures s == Rejected(400) <==> board.None? || (board.value != [] && Rectangular(board.value) && |board.value[0]| != |board.value|)
    ensures s == Rejected(500) <==> board.Some? && (board.value == [] || !Rectangular(board.value))
    ensures s.Rejected? ==> s.status in {400, 500}
  {
    if board.None? then Rejected(400)
    else if board.value == [] || !Rectangular(board.value) then Rejected(500)
    else if |board.value[0]| != |board.value| then Rejected(400)
    else Square(|board.value|)
  }

  /** The cell the decoder writes for a posted value: 1 and 2 are kept, anything else reads as empty. */
  function Kept(v: int): (k: int)
    ensures 0 <= k <= 2 && (k != 0 <==> v == 1 || v == 2)
    ensures k == 2 <==> v == 2
  {
    if v == 1 || v == 2 then v else 0
  }

  /** The squares whose posted value is 1 or 2. */
  ghost function Occupied(grid: Grid, n: nat): set<Pos>
    requires SquareOf(grid, n)
  {
    set r, c | 0 <= r < n && 0 <= c < n && Kept(grid[r][c]) != 0 :: Pos(r, c)
  }

  /** `p` comes before `q` when the grid is read row by row. */
  predicate RowMajorBefore(p: Pos, q: Pos)
  {
    p.row < q.row || (p.row == q.row && p.col < q.col)
  }

  /** No cell of the grid holds 2. */
  predicate NoKnight(grid: Grid, n: nat)
    requires SquareOf(grid, n)
  {
    forall r, c :: 0 <= r < n && 0 <= c < n ==> grid[r][c] != 2
  }

  /** `p` holds 2 and no cell after it in row-major order does: the square the decoder keeps as the knight's. */
  predicate LastKnight(grid: Grid, n: nat, p: Pos)
    requires SquareOf(grid, n)
  {
    && InBounds(n, p) && grid[p.row][p.col] == 2
    && forall r, c :: 0 <= r < n && 0 <= c < n && grid[r][c] == 2 ==> !RowMajorBefore(p, Pos(r, c))
  }

  /** Knight move `i` from `p` lands on a square the grid shows empty. */
  predicate GridLegal(grid: Grid, n: nat, p: Pos, i: nat)
    requires SquareOf(grid, n) && i < MoveCount
  {
    var q := Dest(p, i);
    InBounds(n, q) && Kept(grid[q.row][q.col]) == 0
  }

  /** The knight's square is unique: at most one square is the last 2. */
  lemma LastKnightUnique(grid: Grid, n: nat, p: Pos, q: Pos)
    requires SquareOf(grid, n) && LastKnight(grid, n, p) && LastKnight(grid, n, q)
    ensures p == q
  {
    assert !RowMajorBefore(p, Pos(q.row, q.col)) && !RowMajorBefore(q, Pos(p.row, p.col));
  }

  /** Write a non-empty value into an empty cell: the non-empty squares grow by that one. */
  method SetCell(env: KnightTourEnv, p: Pos, v: int)
    requires env.Wf() && InBounds(env.boardSize, p) && env.board[p.row, p.col] == 0 && v != 0
    modifies env.board
    ensures env.board[p.row, p.col] == v
    ensures forall r, c :: 0 <= r < env.boardSize && 0 <= c < env.boardSize && Pos(r, c) != p ==>
      env.board[r, c] == old(env.board[r, c])
    ensures p !in old(env.Marked()) && env.Marked() == old(env.Marked()) + {p}
  {
    ghost var before := env.Marked();
    env.MarkedMember(p);
    env.board[p.row, p.col] := v;
    forall q ensures q in env.Marked() <==> q in before || q == p {
      env.MarkedMember(q);
      if InBounds(env.boardSize, q) && old(env.board[q.row, q.col]) != 0 {
        assert Pos(q.row, q.col) in before;
      }
    }
  }

  /**
   * The decoder's board up to (not including) square `upTo` in row-major
   * order: the cells before it hold their kept values and the rest are
   * still empty, and the count is the number of non-empty cells.
   */
  ghost predicate Decoded(env: KnightTourEnv, grid: Grid, upTo: Pos, count: int)
    reads env`board, env`currentPos, env.board
    requires env.Wf() && SquareOf(grid, env.boardSize)
  {
    var n := env.boardSize;
    && (forall r, c :: 0 <= r < n && 0 <= c < n ==>
          env.board[r, c] == if RowMajorBefore(Pos(r, c), upTo) then Kept(grid[r][c]) else 0)
    && count == |env.Marked()|
  }

  /** `current` is the last 2 of the grid before `upTo` in row-major order, or `None` if there is none. */
  predicate KnightSoFar(grid: Grid, n: nat, upTo: Pos, current: Option<Pos>)
    requires SquareOf(grid, n)
  {
    && (current.None? <==> forall r, c :: 0 <= r < n && 0 <= c < n && RowMajorBefore(Pos(r, c), upTo) ==> grid[r][c] != 2)
    && (current.Some? ==>
          && RowMajorBefore(current.value, upTo) && InBounds(n, current.value)
          && grid[current.value.row][current.value.col] == 2
          && forall r, c :: 0 <= r < n && 0 <= c < n && RowMajorBefore(Pos(r, c), upTo) && grid[r][c] == 2 ==>
               !RowMajorBefore(current.value, Pos(r, c)))
  }

  /** Reading cell (r, c): a 2 there becomes the knight, anything else keeps the one found before. */
  lemma KnightStep(grid: Grid, n: nat, r: nat, c: nat, current: Option<Pos>)
    requires SquareOf(grid, n) && r < n && c < n && KnightSoFar(grid, n, Pos(r, c), current)
    ensures KnightSoFar(grid, n, Pos(r, c + 1), if grid[r][c] == 2 then Some(Pos(r, c)) else current)
  {
    forall p: Pos ensures RowMajorBefore(p, Pos(r, c + 1)) <==> RowMajorBefore(p, Pos(r, c)) || p == Pos(r, c) { }
  }

  /** The end of a row is the start of the next one. */
  lemma NextRow(env: KnightTourEnv, grid: Grid, r: int, count: int, current: Option<Pos>)
    requires env.Wf() && SquareOf(grid, env.boardSize)
    requires Decoded(env, grid, Pos(r, env.boardSize), count)
    requires KnightSoFar(grid, env.boardSize, Pos(r, env.boardSize), current)
    ensures Decoded(env, grid, Pos(r + 1, 0), count)
    ensures KnightSoFar(grid, env.boardSize, Pos(r + 1, 0), current)
  {
    var n := env.boardSize;
    forall p: Pos | 0 <= p.col < n ensures RowMajorBefore(p, Pos(r, n)) <==> RowMajorBefore(p, Pos(r + 1, 0)) { }
  }

  /** One pass of the inner decoding loop's board work: cell (r, c) is copied if it holds 1 or 2. */
  method DecodeCell(env: KnightTourEnv, grid: Grid, r: nat, c: nat, count: int) returns (count': int)
    requires env.Wf() && SquareOf(grid, env.boardSize) && r < env.boardSize && c < env.boardSize
    requires Decoded(env, grid, Pos(r, c), count)
    modifies env.board
    ensures Decoded(env, grid, Pos(r, c + 1), count')
  {
    var n := env.boardSize;
    var here := Pos(r, c);
    count' := count;
    assert !RowMajorBefore(here, here);
    if grid[r][c] == 1 || grid[r][c] == 2 {
      SetCell(env, here, grid[r][c]);
      count' := count + 1;
    }
    forall r', c' | 0 <= r' < n && 0 <= c' < n
      ensures env.board[r', c'] == if RowMajorBefore(Pos(r', c'), Pos(r, c + 1)) then Kept(grid[r'][c']) else 0
    {
      assert RowMajorBefore(Pos(r', c'), Pos(r, c + 1)) <==> RowMajorBefore(Pos(r', c'), here) || Pos(r', c') == here;
    }
  }

  /** One row of the decoding: its cells are copied left to right, and the knight is the last 2 met so far. */
  method DecodeRow(env: KnightTourEnv, grid: Grid, r: nat, count: int, current: Option<Pos>)
    returns (count': int, current': Option<Pos>)
    requires env.Wf() && SquareOf(grid, env.boardSize) && r < env.boardSize
    requires Decoded(env, grid, Pos(r, 0), count) && KnightSoFar(grid, env.boardSize, Pos(r, 0), current)
    modifies env.board
    ensures Decoded(env, grid, Pos(r + 1, 0), count') && KnightSoFar(grid, env.boardSize, Pos(r + 1, 0), current')
  {
    var n := env.boardSize;
    count', current' := count, current;
    for c := 0 to n
      invariant Decoded(env, grid, Pos(r, c), count') && KnightSoFar(grid, n, Pos(r, c), current')
    {
      count' := DecodeCell(env, grid, r, c, count');
      KnightStep(grid, n, r, c, current');
      if grid[r][c] == 2 {
        current' := Some(Pos(r, c));
      }
    }
    NextRow(env, grid, r, count', current');
  }

  /** The decoding loops: a zeroed board receives the grid's 1s and 2s, row by row. */
  method DecodeBoard(env: KnightTourEnv, grid: Grid) returns (count: int, current: Option<Pos>)
    requires env.Wf() && SquareOf(grid, env.boardSize)
    modifies env`board
    ensures env.Wf() && fresh(env.board)
    ensures Decoded(env, grid, Pos(env.boardSize, 0), count) && KnightSoFar(grid, env.boardSize, Pos(env.boardSize, 0), current)
  {
    var n := env.boardSize;
    env.board := new int[n, n]((r, c) => 0);
    count := 0;
    current := None;
    forall p ensures p !in env.Marked() {
      env.MarkedMember(p);
    }
    for r := 0 to n
      invariant env.Wf() && fresh(env.board)
      invariant Decoded(env, grid, Pos(r, 0), count) && KnightSoFar(grid, n, Pos(r, 0), current)
    {
      count, current := DecodeRow(env, grid, r, count, current);
    }
  }

  /**
   * The decoding of both endpoints: the board holds the 1s and 2s of the
   * grid and nothing else, the count is the number of cells so kept, and
   * the knight is the last 2 met in row-major order. Without a 2 there is
   * no knight, and the position is left alone.
   */
  method DecodeInto(env: KnightTourEnv, grid: Grid) returns (current: Option<Pos>)
    requires env.Wf() && SquareOf(grid, env.boardSize)
    modifies env`board, env`currentPos, env`visitedCount
    ensures env.Wf() && fresh(env.board)
    ensures forall r, c :: 0 <= r < env.boardSize && 0 <= c < env.boardSize ==> env.board[r, c] == Kept(grid[r][c])
    ensures env.Marked() == Occupied(grid, env.boardSize) && env.visitedCount == |Occupied(grid, env.boardSize)|
    ensures current.None? <==> NoKnight(grid, env.boardSize)
    ensures current.Some? ==> LastKnight(grid, env.boardSize, current.value) && env.currentPos == current.value
    ensures current.Some? ==> env.Consistent()
  {
    var count;
    count, current := DecodeBoard(env, grid);
    DecodedComplete(env, grid, count, current);
    env.visitedCount := count;
    if current.Some? {
      env.currentPos := current.value;
    }
  }

  /** Once every square has been read, the board is the kept grid, and the count and knight are the grid's. */
  lemma DecodedComplete(env: KnightTourEnv, grid: Grid, count: int, current: Option<Pos>)
    requires env.Wf() && SquareOf(grid, env.boardSize)
    requires Decoded(env, grid, Pos(env.boardSize, 0), count) && KnightSoFar(grid, env.boardSize, Pos(env.boardSize, 0), current)
    ensures forall r, c :: 0 <= r < env.boardSize && 0 <= c < env.boardSize ==> env.board[r, c] == Kept(grid[r][c])
    ensures env.Marked() == Occupied(grid, env.boardSize) && count == |Occupied(grid, env.boardSize)|
    ensures current.None? <==> NoKnight(grid, env.boardSize)
    ensures current.Some? ==> LastKnight(grid, env.boardSize, current.value)
  {
    var n := env.boardSize;
    forall p ensures p in env.Marked() <==> p in Occupied(grid, n) {
      env.MarkedMember(p);
      if InBounds(n, p) && Kept(grid[p.row][p.col]) != 0 {
        assert Pos(p.row, p.col) in Occupied(grid, n);
      }
    }
  }

  /**
   * The grid the browser game sends for a hint decodes back to its state:
   * the knight is the knight's square, the kept cells are the visited
   * squares, and the count is the number of moves made so far.
   */
  lemma HintRequestDecodes(game: CavaloGame.CavaloSolitario, grid: Grid)
    requires game.Valid() && game.currentPosition.Some?
    requires SquareOf(grid, game.boardSize)
    requires forall r, c :: 0 <= r < game.boardSize && 0 <= c < game.boardSize ==> grid[r][c] == game.CellCode(Pos(r, c))
    ensures CheckShape(Some(grid)) == Square(game.boardSize)
    ensures LastKnight(grid, game.boardSize, game.currentPosition.value)
    ensures Occupied(grid, game.boardSize) == game.visited
    ensures |Occupied(grid, game.boardSize)| == |game.moveHistory|
  {
    var n, knight := game.boardSize, game.currentPosition.value;
    game.VisitedMatchesHistory();
    VisitedHas(game.moveHistory, |game.moveHistory| - 1);
    assert InBounds(n, knight) by {
      assert knight in Cells(n);
    }
    forall p ensures p in Occupied(grid, n) <==> p in game.visited {
      if p in game.visited {
        assert p in Cells(n);
        assert Pos(p.row, p.col) in Occupied(grid, n);
      }
    }
  }

  /** `KnightTourEnv(board_size)` followed by the decoding loops: a fresh environment holding the posted grid. */
  method NewDecoded(n: nat, grid: Grid) returns (env: KnightTourEnv, current: Option<Pos>)
    requires n >= 1 && SquareOf(grid, n)
    ensures fresh(env) && fresh(env.board) && env.boardSize == n && env.Wf()
    ensures forall r, c :: 0 <= r < n && 0 <= c < n ==> env.board[r, c] == Kept(grid[r][c])
    ensures env.visitedCount == |Occupied(grid, n)|
    ensures current.None? <==> NoKnight(grid, n)
    ensures current.Some? ==> LastKnight(grid, n, current.value) && env.currentPos == current.value && env.Consistent()
  {
    env := new KnightTourEnv(n);
    current := DecodeInto(env, grid);
  }

  /**
   * `act` on the decoded state with its mask: with epsilon 0 the agent is
   * greedy except on a draw of exactly 0, and either way its choice is a
   * legal move whenever one exists.
   */
  method ChooseMove(env: KnightTourEnv, agent: DQNAgent<State>) returns (action: nat)
    requires env.Wf() && agent.Valid() && agent.actionSize == MoveCount
    ensures action < MoveCount
    ensures env.AnyLegal() ==> env.Legal(action)
  {
    var state := ObservedState(env);
    var mask := env.GetValidMovesMask();
    var coin: real :| 0.0 <= coin < 1.0;
    var explored;
    action, explored := agent.Act(state, mask[..], coin);
    if env.AnyLegal() {
      var i :| 0 <= i < MoveCount && env.Legal(i);
      assert mask[..][i];
    }
  }

  /**
   * One round of the playout loop: stop when the mask offers nothing,
   * otherwise let the agent pick from the mask and step. The move taken is
   * legal, so it adds one visited square, and the step ends the game only
   * when the board is full or the knight has no move left.
   */
  method PlayStep(env: KnightTourEnv, agent: DQNAgent<State>, state: State) returns (moved: bool, action: nat, done: bool, state': State)
    requires env.Consistent() && agent.Valid() && agent.actionSize == MoveCount
    modifies env`currentPos, env`path, env`visitedCount, env.board
    ensures env.Consistent() && env.board == old(env.board)
    ensures env.visitedCount <= env.totalSquares
    ensures !moved ==> !done && env.visitedCount == old(env.visitedCount) && !env.AnyLegal()
    ensures moved ==> action < MoveCount && env.visitedCount == old(env.visitedCount) + 1
    ensures done ==> env.visitedCount == env.totalSquares || !env.AnyLegal()
  {
    var mask := env.GetValidMovesMask();
    if !(exists i :: 0 <= i < MoveCount && mask[i]) {
      env.WinIffFull();
      return false, 0, false, state;
    }
    var coin: real :| 0.0 <= coin < 1.0;
    var explored;
    action, explored := agent.Act(state, mask[..], coin);
    assert mask[..][action];
    moved := true;
    // `env.step(action)`: the transition, then the observation it returns
    var reward, status;
    reward, done, status := env.Transition(action);
    state' := ObservedState(env);
    env.WinIffFull();
  }

  /**
   * The playout loop of `/play_with_ai`, from the decoded position with the
   * path reset to the knight's square. Every move is legal, so each adds
   * one visited square: the playout is shorter than the board, the safety
   * cap of 2n² moves is never what stops it, and it ends with every square
   * visited or with the knight out of moves.
   */
  method Play(env: KnightTourEnv, agent: DQNAgent<State>) returns (moves: seq<MoveRecord>)
    requires env.Consistent() && agent.Valid() && agent.actionSize == MoveCount
    modifies env`currentPos, env`path, env`visitedCount, env.board
    ensures env.Consistent() && env.board == old(env.board)
    ensures env.visitedCount == old(env.visitedCount) + |moves|
    ensures |moves| < env.totalSquares
    ensures env.visitedCount == env.totalSquares || !env.AnyLegal()
    ensures forall k :: 0 <= k < |moves| ==> moves[k].actionIndex < MoveCount && moves[k] == Record(moves[k].actionIndex)
  {
    env.path := [env.currentPos];
    var n := env.boardSize;
    moves := [];
    var done := false;
    var state := ObservedState(env);
    var maxMoves := n * n * 2;
    ghost var start := env.visitedCount;
    assert start >= 1 by {
      env.MarkedMember(env.currentPos);
    }
    env.WinIffFull();
    while !done && |moves| < maxMoves
      invariant env.Consistent() && env.board == old(env.board) && env.totalSquares == n * n
      invariant env.visitedCount == start + |moves| <= n * n
      invariant done ==> env.visitedCount == env.totalSquares || !env.AnyLegal()
      invariant forall k :: 0 <= k < |moves| ==> moves[k].actionIndex < MoveCount && moves[k] == Record(moves[k].actionIndex)
      decreases maxMoves - |moves|
    {
      var moved, action;
      moved, action, done, state := PlayStep(env, agent, state);
      if !moved {
        break;
      }
      moves := moves + [Record(action)];
    }
  }

  /**
   * The agent `load_agent_for_size` builds: a fresh agent for the eight
   * moves with epsilon 0, holding the given weights in both networks.
   */
  method LoadedAgent(predict: (Weights, State) -> seq<real>, fit: (Weights, seq<State>, seq<seq<real>>) -> Weights,
                     initial: Weights, weights: Weights) returns (agent: DQNAgent<State>)
    requires forall w, s :: |predict(w, s)| == MoveCount
    ensures fresh(agent) && agent.Valid() && agent.actionSize == MoveCount && agent.predict == predict
    ensures agent.epsilon == 0.0 && agent.online == weights && agent.target == weights && agent.memory == []
  {
    agent := new DQNAgent<State>(MoveCount, predict, fit, initial, 0.001, 0.99, 0.0, 0.995, 0.01);
    agent.Load(weights);
  }

  class Server {
    /** The model table and lookup the server consults. */
    const config: ModelConfig
    /** The network the agents are built on: its forward pass, its training step and its freshly built weights. */
    const predict: (Weights, State) -> seq<real>
    const fit: (Weights, seq<State>, seq<seq<real>>) -> Weights
    const initial: Weights
    /** `load_weights`: the weights stored in a file, `None` where loading raises. */
    const loadWeights: string -> Option<Weights>
    /** `agents_cache`: the agent and model description loaded for each board size. */
    var agentsCache: map<nat, (DQNAgent<State>, ModelInfo)>

    /** A cached agent plays greedily on the weights of the file its description names. */
    ghost predicate Serves(agent: DQNAgent<State>, info: ModelInfo)
      reads agent
    {
      && agent.Valid() && agent.actionSize == MoveCount && agent.epsilon == 0.0 && agent.predict == predict
      && info.Info? && info.available && info.modelPath.Some?
      && loadWeights(info.modelPath.value) == Some(agent.online)
    }

    ghost predicate Valid()
      reads this, set n | n in agentsCache :: agentsCache[n].0
    {
      && (forall w, s :: |predict(w, s)| == MoveCount)
      && forall n :: n in agentsCache ==> Serves(agentsCache[n].0, agentsCache[n].1)
    }

    constructor (config: ModelConfig, predict: (Weights, State) -> seq<real>, fit: (Weights, seq<State>, seq<seq<real>>) -> Weights,
                 initial: Weights, loadWeights: string -> Option<Weights>)
      requires forall w, s :: |predict(w, s)| == MoveCount
      ensures Valid() && agentsCache == map[]
      ensures this.config == config && this.predict == predict && this.loadWeights == loadWeights
    {
      this.config := config;
      this.predict := predict;
      this.fit := fit;
      this.initial := initial;
      this.loadWeights := loadWeights;
      agentsCache := map[];
    }

    /**
     * `load_agent_for_size`: a cached size is answered from the cache,
     * whatever the files now hold. Otherwise the size's model must be
     * available and its file must load; the new agent (epsilon 0) then
     * holds the file's weights and is cached. A failure caches nothing.
     */
    method LoadAgentForSize(n: nat, fs: FileSystem) returns (loaded: Option<(DQNAgent<State>, ModelInfo)>)
      requires Valid()
      modifies this`agentsCache
      ensures Valid()
      ensures n in old(agentsCache) ==> loaded == Some(old(agentsCache)[n]) && agentsCache == old(agentsCache)
      ensures n !in old(agentsCache) ==>
        (loaded.Some? <==>
           && SizeKey(n) in config.bestModels
           && config.Lookup(config.bestModels, n, fs).Some?
           && loadWeights(config.Lookup(config.bestModels, n, fs).value).Some?)
      ensures n !in old(agentsCache) && loaded.None? ==> agentsCache == old(agentsCache)
      ensures n !in old(agentsCache) && loaded.Some? ==>
        && agentsCache == old(agentsCache)[n := loaded.value] && fresh(loaded.value.0)
        && loaded.value.1.Info? && loaded.value.1.modelPath == config.Lookup(config.bestModels, n, fs)
      ensures loaded.Some? <==> n in agentsCache
      ensures loaded.Some? ==> agentsCache[n] == loaded.value && Serves(loaded.value.0, loaded.value.1)
    {
      if n in agentsCache {
        return Some(agentsCache[n]);
      }
      var info := config.GetModelInfo(n, fs);
      if !(info.Info? && info.available) {
        return None;
      }
      var weights := loadWeights(info.modelPath.value);
      if weights.None? {
        return None;
      }
      var agent := LoadedAgent(predict, fit, initial, weights.value);
      agentsCache := agentsCache[n := (agent, info)];
      loaded := Some((agent, info));
    }

    /**
     * The part both endpoints share: the shape checks, the agent, and the
     * grid decoded into a fresh environment. The errors come in the order
     * the handlers meet them: shape, then model (400), then a grid without
     * a knight (500, where reading the knight's moves fails).
     */
    method Prepare(body: Option<Grid>, fs: FileSystem) returns (p: Prepared)
      requires Valid()
      modifies this`agentsCache
      ensures Valid()
      ensures CheckShape(body).Rejected? ==> p == Failed(CheckShape(body).status) && agentsCache == old(agentsCache)
      ensures p.Failed? ==> p.status in {400, 500}
      ensures CheckShape(body).Square? ==>
        var n := CheckShape(body).n;
        && (n in old(agentsCache) || n !in agentsCache ==> agentsCache == old(agentsCache))
        && (p == Failed(400) <==> n !in agentsCache)
        && (n in agentsCache ==> (p == Failed(500) <==> NoKnight(body.value, n)))
      ensures p.Ready? ==>
        var n := CheckShape(body).n;
        && CheckShape(body).Square? && n in agentsCache && (p.agent, p.info) == agentsCache[n]
        && Serves(p.agent, p.info)
        && fresh(p.env) && fresh(p.env.board) && p.env.boardSize == n && p.env.Consistent()
        && LastKnight(body.value, n, p.env.currentPos)
        && p.env.visitedCount == |Occupied(body.value, n)|
        && (forall r, c :: 0 <= r < n && 0 <= c < n ==> p.env.board[r, c] == Kept(body.value[r][c]))
    {
      var shape := CheckShape(body);
      if shape.Rejected? {
        return Failed(shape.status);
      }
      var n := shape.n;
      var loaded := LoadAgentForSize(n, fs);
      if loaded.None? {
        return Failed(400);
      }
      var env, current := NewDecoded(n, body.value);
      if current.None? {
        return Failed(500);
      }
      p := Ready(env, loaded.value.0, loaded.value.1);
    }

    /**
     * `/predict`: one hint. Whenever the knight has a legal move on the
     * posted grid the hint is one of them, even on the rare draw where the
     * greedy agent explores; the offset is the action's knight move.
     */
    method Predict(body: Option<Grid>, fs: FileSystem) returns (resp: Response)
      requires Valid()
      modifies this`agentsCache
      ensures Valid()
      ensures CheckShape(body).Rejected? ==> resp == Error(CheckShape(body).status) && agentsCache == old(agentsCache)
      ensures resp.Error? ==> resp.status in {400, 500}
      ensures CheckShape(body).Square? ==>
        var n := CheckShape(body).n;
        && (resp == Error(400) <==> n !in agentsCache)
        && (n in agentsCache ==> (resp == Error(500) <==> NoKnight(body.value, n)))
      ensures resp.Hint? ==>
        var n, a := CheckShape(body).n, resp.move.actionIndex;
        && CheckShape(body).Square? && n in agentsCache && resp.info == agentsCache[n].1
        && a < MoveCount && resp.move == Record(a)
        && forall k :: LastKnight(body.value, n, k) ==>
             (exists i :: 0 <= i < MoveCount && GridLegal(body.value, n, k, i)) ==> GridLegal(body.value, n, k, a)
      ensures !resp.Playout?
    {
      var p := Prepare(body, fs);
      if p.Failed? {
        return Error(p.status);
      }
      var action := ChooseMove(p.env, p.agent);
      resp := Hint(Record(action), p.info);
      ghost var n := p.env.boardSize;
      forall k | LastKnight(body.value, n, k)
        ensures (exists i :: 0 <= i < MoveCount && GridLegal(body.value, n, k, i)) ==> GridLegal(body.value, n, k, action)
      {
        LastKnightUnique(body.value, n, k, p.env.currentPos);
        if exists i :: 0 <= i < MoveCount && GridLegal(body.value, n, k, i) {
          var i :| 0 <= i < MoveCount && GridLegal(body.value, n, k, i);
          assert p.env.Legal(i);
        }
      }
    }

    /**
     * `/play_with_ai`: after the same checks and decoding, the agent plays
     * on from the posted position. The reply counts the kept cells plus one
     * per move, never exceeds the board, and reports success exactly when
     * every square ends up visited.
     */
    method PlayWithAI(body: Option<Grid>, fs: FileSystem) returns (resp: Response)
      requires Valid()
      modifies this`agentsCache
      ensures Valid()
      ensures CheckShape(body).Rejected? ==> resp == Error(CheckShape(body).status) && agentsCache == old(agentsCache)
      ensures resp.Error? ==> resp.status in {400, 500}
      ensures CheckShape(body).Square? ==>
        var n := CheckShape(body).n;
        && (resp == Error(400) <==> n !in agentsCache)
        && (n in agentsCache ==> (resp == Error(500) <==> NoKnight(body.value, n)))
      ensures resp.Playout? ==>
        var n := CheckShape(body).n;
        && CheckShape(body).Square? && n in agentsCache && resp.info == agentsCache[n].1
        && resp.totalSquares == n * n
        && resp.visitedCount == |Occupied(body.value, n)| + |resp.moves|
        && resp.visitedCount <= n * n && |resp.moves| < n * n
        && (resp.success <==> resp.visitedCount == n * n)
        && forall k :: 0 <= k < |resp.moves| ==> resp.moves[k].actionIndex < MoveCount && resp.moves[k] == Record(resp.moves[k].actionIndex)
      ensures !resp.Hint?
    {
      var p := Prepare(body, fs);
      if p.Failed? {
        return Error(p.status);
      }
      var env := p.env;
      var moves := Play(env, p.agent);
      env.WinIffFull();
      resp := Playout(moves, env.visitedCount == env.boardSize * env.boardSize, env.visitedCount,
                      env.boardSize * env.boardSize, p.info);
    }
  }

  /** The shared preparation's outcome: an error status, or the decoded environment and the agent to consult. */
  datatype Prepared =
    | Failed(status: nat)
    | Ready(env: KnightTourEnv, agent: DQNAgent<State>, info: ModelInfo)
}
