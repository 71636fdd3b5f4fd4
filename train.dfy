/**
 * The training script: ten thousand episodes on the 6x6 board, each played
 * by the agent until the environment ends it or a thousand steps have been
 * taken, followed by one replay; the target network is synchronised every
 * ten episodes, every episode adds a row to the training log, the last
 * hundred episodes are kept for a summary, exploration is restarted when a
 * thousandth episode is lost, and a checkpoint is saved every hundred
 * episodes, with a final one at the end.
 */
module Train {
  import opened Wrappers
  import opened Text
  import opened Sequences
  import opened KnightMoves
  import opened KnightEnv
  import opened DqnAgent
  import opened ModelConfig

  const BoardSize: nat := 6
  const Episodes: nat := 10000
  const BatchSize: nat := 64
  const TargetUpdateFreq: nat := 10
  const MaxStepsPerEpisode: nat := 1000
  /** The episodes kept in `last_100`, which is also the length of a summary group and the checkpoint period. */
  const GroupSize: nat := 100
  /** Every this many episodes a lost episode restarts exploration. */
  const RestartPeriod: nat := 1000
  const RestartFloor: real := 0.2

  /** A row of the training log, and an entry of `last_100`. */
  datatype EpisodeRecord = EpisodeRecord(episode: nat, score: nat, visited: int, win: nat, epsilon: real,
                                         avgReward: real, invalidMoves: nat)

  /** What is reported at the end of a group of a hundred episodes: its best episode and its number of wins. */
  datatype GroupSummary = GroupSummary(best: EpisodeRecord, wins: nat)

  /** The centre square, where every episode starts, has a knight move onto the board. */
  predicate CentreHasMove(n: nat)
  {
    exists i :: 0 <= i < MoveCount && InBounds(n, Dest(Pos(n / 2, n / 2), i))
  }

  lemma TrainingBoardHasMove()
    ensures CentreHasMove(BoardSize)
  {
    assert InBounds(BoardSize, Dest(Pos(BoardSize / 2, BoardSize / 2), 0));
  }

  /**
   * `env.reset()` at the start of an episode, with the observation stacked
   * into the network's input. The knight starts with a legal move exactly
   * when the centre has a knight move onto the board.
   */
  method StartEpisode(env: KnightTourEnv) returns (state: State)
    requires env.boardSize >= 1 && env.totalSquares == env.boardSize * env.boardSize
    modifies env
    ensures fresh(env.board) && env.Consistent() && env.visitedCount == 1
    ensures env.AnyLegal() <==> CentreHasMove(env.boardSize)
  {
    var obs := env.Reset();
    state := Stacked(obs);
    env.ValidIsConsistent();
    var n := env.boardSize;
    var centre := Pos(n / 2, n / 2);
    forall i | 0 <= i < MoveCount
      ensures env.Legal(i) <==> InBounds(n, Dest(centre, i))
    {
      DeltasAreKnightMoves(centre, Dest(centre, i));
    }
  }

  /**
   * The mask and `act`: the agent's choice is a legal move exactly when the
   * knight has one, whether it explored or exploited.
   */
  method ChooseAction(env: KnightTourEnv, agent: DQNAgent<State>, state: State) returns (action: nat)
    requires env.Wf() && agent.Valid() && agent.actionSize == MoveCount
    ensures action < MoveCount && (env.Legal(action) <==> env.AnyLegal())
  {
    var mask := env.GetValidMovesMask();
    var coin: real :| 0.0 <= coin < 1.0;
    var explored;
    action, explored := agent.Act(state, mask[..], coin);
    if env.AnyLegal() {
      var i :| 0 <= i < MoveCount && env.Legal(i);
      assert mask[..][i];
    }
  }

  /**
   * `env.step(action)` as the training loop sees it: an illegal move
   * changes nothing, a legal one visits one more square, and the step ends
   * the episode only on a full board or a knight with no move left.
   */
  method StepEnv(env: KnightTourEnv, action: nat) returns (invalid: bool, reward: real, done: bool, next: State)
    requires env.Consistent() && action < MoveCount
    modifies env`currentPos, env`path, env`visitedCount, env.board
    ensures env.Consistent() && env.board == old(env.board) && env.visitedCount <= env.totalSquares
    ensures invalid <==> !old(env.Legal(action))
    ensures invalid ==> !done && env.visitedCount == old(env.visitedCount) && unchanged(env.board) && env.currentPos == old(env.currentPos)
    ensures !invalid ==> env.visitedCount == old(env.visitedCount) + 1
    ensures done ==> env.visitedCount == env.totalSquares || !env.AnyLegal()
    ensures !done && !invalid ==> env.AnyLegal()
  {
    var status;
    reward, done, status := env.Transition(action);
    next := ObservedState(env);
    env.WinIffFull();
    invalid := status == InvalidMove;
  }

  /**
   * One step of an episode: mask, `act`, `step`, `remember`. The agent's
   * choice is illegal exactly when the knight has no legal move; an illegal
   * move leaves the knight without one, a legal one visits one more square,
   * and the step ends the episode only on a full board or a knight with no
   * move left. The transition is appended to the agent's memory.
   */
  method EpisodeStep(env: KnightTourEnv, agent: DQNAgent<State>, state: State)
    returns (invalid: bool, reward: real, done: bool, next: State)
    requires env.Consistent() && agent.Valid() && agent.actionSize == MoveCount
    modifies env`currentPos, env`path, env`visitedCount, env.board, agent
    ensures env.Consistent() && env.board == old(env.board) && env.visitedCount <= env.totalSquares
    ensures invalid <==> !old(env.AnyLegal())
    ensures invalid ==> !done && env.visitedCount == old(env.visitedCount) && !env.AnyLegal()
    ensures !invalid ==> env.visitedCount == old(env.visitedCount) + 1
    ensures done ==> env.visitedCount == env.totalSquares || !env.AnyLegal()
    ensures !done && !invalid ==> env.AnyLegal()
    ensures agent.Valid() && |agent.remembered| == |old(agent.remembered)| + 1
    ensures agent.online == old(agent.online) && agent.target == old(agent.target) && agent.epsilon == old(agent.epsilon)
  {
    var action := ChooseAction(env, agent, state);
    invalid, reward, done, next := StepEnv(env, action);
    agent.Remember(Transition(state, action, reward, next, done));
  }

  /**
   * The step loop of an episode. `steps` is the score `time + 1`: at least
   * one step is taken, at most a thousand, and fewer only when the episode
   * ended. Every step that is not an invalid move visits one more square.
   * If the centre has a knight move no step is ever invalid; otherwise
   * every step is, and the episode runs its thousand steps.
   */
  method RunEpisode(env: KnightTourEnv, agent: DQNAgent<State>) returns (steps: nat, totalReward: real, invalidMoves: nat)
    requires env.boardSize >= 1 && env.totalSquares == env.boardSize * env.boardSize
    requires agent.Valid() && agent.actionSize == MoveCount
    modifies env, agent
    ensures env.Consistent() && agent.Valid()
    ensures 1 <= steps <= MaxStepsPerEpisode && invalidMoves <= steps
    ensures env.visitedCount == 1 + steps - invalidMoves <= env.totalSquares
    ensures steps < MaxStepsPerEpisode ==> env.visitedCount == env.totalSquares || !env.AnyLegal()
    ensures CentreHasMove(env.boardSize) ==> invalidMoves == 0
    ensures !CentreHasMove(env.boardSize) ==> invalidMoves == steps == MaxStepsPerEpisode
    ensures |agent.remembered| == |old(agent.remembered)| + steps
    ensures agent.online == old(agent.online) && agent.target == old(agent.target) && agent.epsilon == old(agent.epsilon)
  {
    var state := StartEpisode(env);
    var centre := CentreHasMove(env.boardSize);
    steps, totalReward, invalidMoves := 0, 0.0, 0;
    var done := false;
    while !done && steps < MaxStepsPerEpisode
      invariant env.Consistent() && agent.Valid() && agent.actionSize == MoveCount
      invariant env.totalSquares == env.boardSize * env.boardSize
      invariant steps <= MaxStepsPerEpisode && invalidMoves <= steps
      invariant env.visitedCount == 1 + steps - invalidMoves <= env.totalSquares
      invariant done ==> 1 <= steps && (env.visitedCount == env.totalSquares || !env.AnyLegal())
      invariant centre ==> invalidMoves == 0 && (!done ==> env.AnyLegal())
      invariant !centre ==> invalidMoves == steps && !done && !env.AnyLegal()
      invariant |agent.remembered| == |old(agent.remembered)| + steps
      invariant agent.online == old(agent.online) && agent.target == old(agent.target) && agent.epsilon == old(agent.epsilon)
      invariant fresh(env.board)
      decreases MaxStepsPerEpisode - steps
    {
      var invalid, reward;
      invalid, reward, done, state := EpisodeStep(env, agent, state);
      totalReward := totalReward + reward;
      if invalid {
        invalidMoves := invalidMoves + 1;
      }
      steps := steps + 1;
    }
  }

  /** `total_reward / score if score > 0 else 0`. */
  function AverageReward(total: real, score: nat): (r: real)
    ensures score > 0 ==> r * score as real == total
  {
    if score > 0 then total / score as real else 0.0
  }

  /** `1 if max_visited == env.total_squares else 0`. */
  function WinFlag(visited: int, total: nat): (w: nat)
    ensures w <= 1 && (w == 1 <==> visited == total)
  {
    if visited == total then 1 else 0
  }

  /**
   * What every log row of a training run on the 6x6 board says: an invalid
   * move never happens, so the score is one less than the squares visited;
   * the score is at most 35, and the episode is a win exactly when all 36
   * squares were visited.
   */
  predicate LoggedEpisode(r: EpisodeRecord, e: nat)
  {
    && r.episode == e
    && r.invalidMoves == 0
    && 1 <= r.score && r.visited == r.score + 1 <= BoardSize * BoardSize
    && r.win <= 1 && (r.win == 1 <==> r.visited == BoardSize * BoardSize)
  }

  /**
   * One episode of the training loop up to its log row: the episode, one
   * replay on a random sample, the target synchronisation on every tenth
   * episode, and the row. Every step remembers one transition, and the
   * replay decays epsilon exactly when the memory then holds a batch.
   */
  method TrainEpisode(env: KnightTourEnv, agent: DQNAgent<State>, e: nat) returns (row: EpisodeRecord)
    requires env.boardSize == BoardSize && env.totalSquares == BoardSize * BoardSize
    requires agent.Valid() && agent.actionSize == MoveCount
    modifies env, agent
    ensures agent.Valid() && LoggedEpisode(row, e) && row.epsilon == agent.epsilon
    ensures agent.epsilon == old(agent.epsilon) || agent.epsilon == DecayedEpsilon(old(agent.epsilon), agent.epsilonMin, agent.epsilonDecay)
    ensures |agent.remembered| == |old(agent.remembered)| + row.score
    ensures |agent.memory| >= BatchSize ==> agent.epsilon == DecayedEpsilon(old(agent.epsilon), agent.epsilonMin, agent.epsilonDecay)
    ensures |agent.memory| < BatchSize ==> agent.epsilon == old(agent.epsilon)
    ensures e % TargetUpdateFreq == 0 ==> agent.target == agent.online
  {
    var steps, totalReward, invalidMoves := RunEpisode(env, agent);
    TrainingBoardHasMove();
    var picks: seq<nat> := [];
    if |agent.memory| >= BatchSize {
      picks := FirstPicks(|agent.memory|, BatchSize);
      picks :| SamplePicks(picks, |agent.memory|, BatchSize);
    }
    var trained, batch, targets := agent.Replay(BatchSize, picks);
    if e % TargetUpdateFreq == 0 {
      agent.UpdateTargetModel();
    }
    var score := steps;
    var visited := env.visitedCount;
    row := EpisodeRecord(e, score, visited, WinFlag(visited, env.totalSquares), agent.epsilon,
                         AverageReward(totalReward, score), invalidMoves);
  }

  /** The first `n` positions: a sample exists whenever the memory holds at least `n` entries. */
  function FirstPicks(size: nat, n: nat): (picks: seq<nat>)
    requires n <= size
    ensures SamplePicks(picks, size, n)
  {
    seq(n, k requires 0 <= k < n => k)
  }

  /** `max(agent.epsilon, 0.2)` when the episode closing a thousand was lost, otherwise epsilon unchanged. */
  function RestartedEpsilon(epsilon: real, e: nat, win: nat): (r: real)
    ensures r >= epsilon && (r == epsilon || r == RestartFloor)
    ensures (e + 1) % RestartPeriod == 0 && win == 0 ==> r >= RestartFloor
    ensures (e + 1) % RestartPeriod != 0 || win != 0 ==> r == epsilon
  {
    if (e + 1) % RestartPeriod == 0 && win == 0 then (if epsilon >= RestartFloor then epsilon else RestartFloor)
    else epsilon
  }

  /**
   * The epsilon logged after `prev`, when `remembered` transitions have been
   * remembered by the end of the episode: the restarted value, decayed once
   * by the replay exactly when the memory holds a batch.
   */
  predicate EpsilonFollows(prev: EpisodeRecord, epsilon: real, remembered: nat, epsilonMin: real, decay: real)
  {
    var restarted := RestartedEpsilon(prev.epsilon, prev.episode, prev.win);
    epsilon == if remembered >= BatchSize then DecayedEpsilon(restarted, epsilonMin, decay) else restarted
  }

  /** The ranking `(win, visited, -episode)`: `a` ranks no higher than `b`. */
  predicate RanksBelow(a: EpisodeRecord, b: EpisodeRecord)
  {
    a.win < b.win || (a.win == b.win && (a.visited < b.visited || (a.visited == b.visited && a.episode >= b.episode)))
  }

  /** `max(last_100, key=...)`: the first entry ranked highest. */
  function BestEpisode(window: seq<EpisodeRecord>): (r: nat)
    requires |window| > 0
    ensures r < |window|
    ensures forall j :: 0 <= j < |window| ==> RanksBelow(window[j], window[r])
    ensures forall j :: 0 <= j < r ==> !RanksBelow(window[r], window[j])
  {
    if |window| == 1 then 0
    else
      var k := BestEpisode(window[..|window| - 1]);
      if !RanksBelow(window[|window| - 1], window[k]) then |window| - 1 else k
  }

  /** `wins_in_group`: the episodes of the window that were won. */
  function WinsInGroup(window: seq<EpisodeRecord>): (n: nat)
    ensures n <= |window|
    ensures n == 0 <==> forall j :: 0 <= j < |window| ==> window[j].win != 1
  {
    if window == [] then 0
    else WinsInGroup(window[..|window| - 1]) + (if window[|window| - 1].win == 1 then 1 else 0)
  }

  /** The count is the number of positions in the window whose episode was won. */
  lemma {:induction false} WinsInGroupCounts(window: seq<EpisodeRecord>)
    ensures WinsInGroup(window) == |set j | 0 <= j < |window| && window[j].win == 1|
    decreases |window|
  {
    if window != [] {
      var front := window[..|window| - 1];
      WinsInGroupCounts(front);
      var before := set j | 0 <= j < |front| && front[j].win == 1;
      var all := set j | 0 <= j < |window| && window[j].win == 1;
      if window[|window| - 1].win == 1 {
        assert all == before + {|window| - 1};
      } else {
        assert all == before;
      }
    }
  }

  /** Wins are counted episode by episode, so the count over two stretches is the sum of their counts. */
  lemma {:induction false} WinsInGroupAdditive(a: seq<EpisodeRecord>, b: seq<EpisodeRecord>)
    ensures WinsInGroup(a + b) == WinsInGroup(a) + WinsInGroup(b)
    decreases |b|
  {
    if b == [] {
      assert a + b == a;
    } else {
      var b' := b[..|b| - 1];
      assert (a + b)[..|a + b| - 1] == a + b';
      assert (a + b)[|a + b| - 1] == b[|b| - 1];
      WinsInGroupAdditive(a, b');
    }
  }

  /**
   * Among episodes with distinct numbers the best one is unique: every
   * other episode ranks strictly lower, so a tie in wins and squares goes
   * to the earliest episode. If any episode of the window was won, the
   * best one was.
   */
  lemma BestEpisodeStrict(window: seq<EpisodeRecord>)
    requires |window| > 0
    requires forall i, j :: 0 <= i < j < |window| ==> window[i].episode < window[j].episode
    requires forall j :: 0 <= j < |window| ==> window[j].win <= 1
    ensures forall j :: 0 <= j < |window| && j != BestEpisode(window) ==> !RanksBelow(window[BestEpisode(window)], window[j])
    ensures WinsInGroup(window) > 0 ==> window[BestEpisode(window)].win == 1
  {
    var r := BestEpisode(window);
    if WinsInGroup(window) > 0 {
      var j :| 0 <= j < |window| && window[j].win == 1;
      assert RanksBelow(window[j], window[r]);
    }
  }

  function Summarize(window: seq<EpisodeRecord>): GroupSummary
    requires |window| > 0
  {
    GroupSummary(window[BestEpisode(window)], WinsInGroup(window))
  }

  /** Each summary is that of the hundred consecutive log rows it closes. */
  predicate SummarizesGroups(summaries: seq<GroupSummary>, log: seq<EpisodeRecord>)
  {
    && |summaries| == |log| / GroupSize
    && forall g :: 0 <= g < |summaries| ==> summaries[g] == Summarize(log[g * GroupSize..(g + 1) * GroupSize])
  }

  /** A new row adds a summary exactly when it closes a group, and that summary is the one of the window it closes. */
  lemma SummariesGrow(summaries: seq<GroupSummary>, log: seq<EpisodeRecord>, row: EpisodeRecord)
    requires SummarizesGroups(summaries, log)
    ensures (|log| + 1) % GroupSize != 0 ==> SummarizesGroups(summaries, log + [row])
    ensures (|log| + 1) % GroupSize == 0 ==>
      && Window(log + [row], GroupSize) == (log + [row])[|log| + 1 - GroupSize..]
      && SummarizesGroups(summaries + [Summarize(Window(log + [row], GroupSize))], log + [row])
  {
    var log' := log + [row];
    var n := |log|;
    forall g | 0 <= g < |summaries|
      ensures log'[g * GroupSize..(g + 1) * GroupSize] == log[g * GroupSize..(g + 1) * GroupSize]
    {
      assert (g + 1) * GroupSize <= n;
    }
    if (n + 1) % GroupSize == 0 {
      var k := (n + 1) / GroupSize;
      assert n + 1 == k * GroupSize && n / GroupSize == k - 1;
      var w := Window(log', GroupSize);
      assert w == log'[(k - 1) * GroupSize..k * GroupSize];
      var summaries' := summaries + [Summarize(w)];
      forall g | 0 <= g < |summaries'|
        ensures summaries'[g] == Summarize(log'[g * GroupSize..(g + 1) * GroupSize])
      {
        if g < |summaries| {
          assert summaries'[g] == summaries[g];
        }
      }
    } else {
      assert n / GroupSize == (n + 1) / GroupSize;
    }
  }

  /** The transitions remembered by the end of the logged episodes: one per step, so the sum of the scores. */
  function Scored(log: seq<EpisodeRecord>): nat
  {
    if log == [] then 0 else Scored(log[..|log| - 1]) + log[|log| - 1].score
  }

  /** The scores only add up: once the memory holds a batch, every later episode's replay trains and decays epsilon. */
  lemma {:induction false} ScoredGrows(log: seq<EpisodeRecord>, e: nat, f: nat)
    requires e <= f <= |log|
    ensures Scored(log[..e]) <= Scored(log[..f])
    decreases f - e
  {
    if e < f {
      ScoredGrows(log, e, f - 1);
      assert log[..f][..f - 1] == log[..f - 1];
    }
  }

  /**
   * Epsilon along the log: the first episode starts from 1.0, each later one
   * from the restarted value of the row before, and the episode's replay
   * decays it exactly when the scores so far add up to a batch.
   */
  predicate EpsilonsFollow(log: seq<EpisodeRecord>, epsilonMin: real, decay: real)
  {
    && (|log| > 0 ==> log[0].epsilon == if log[0].score >= BatchSize then DecayedEpsilon(1.0, epsilonMin, decay) else 1.0)
    && forall e :: 0 < e < |log| ==> EpsilonFollows(log[e - 1], log[e].epsilon, Scored(log[..e + 1]), epsilonMin, decay)
  }

  lemma EpsilonsGrow(log: seq<EpisodeRecord>, row: EpisodeRecord, epsilonMin: real, decay: real)
    requires EpsilonsFollow(log, epsilonMin, decay)
    requires |log| == 0 ==> row.epsilon == if row.score >= BatchSize then DecayedEpsilon(1.0, epsilonMin, decay) else 1.0
    requires |log| > 0 ==> EpsilonFollows(log[|log| - 1], row.epsilon, Scored(log + [row]), epsilonMin, decay)
    ensures EpsilonsFollow(log + [row], epsilonMin, decay)
  {
    var log' := log + [row];
    forall e | 0 < e < |log'| ensures EpsilonFollows(log'[e - 1], log'[e].epsilon, Scored(log'[..e + 1]), epsilonMin, decay) {
      if e < |log| {
        assert log'[e - 1] == log[e - 1] && log'[e] == log[e];
        assert log'[..e + 1] == log[..e + 1];
      } else {
        assert log'[..e + 1] == log';
      }
    }
  }

  /** `f"models/6x6/knight_tour_dqn_b{BOARD_SIZE}_e{e+1}.h5"`. */
  function CheckpointPath(board: nat, episodes: nat): string
  {
    "models/6x6/knight_tour_dqn_b" + NatToString(board) + "_e" + NatToString(episodes) + ".h5"
  }

  /** `f"models/6x6/knight_tour_dqn_b{BOARD_SIZE}_final.h5"`. */
  function FinalPath(board: nat): string
  {
    "models/6x6/knight_tour_dqn_b" + NatToString(board) + "_final.h5"
  }

  /** The checkpoints saved during the first `k` episodes: one after every hundredth, named by its episode count. */
  function Checkpoints(k: nat): (saved: seq<string>)
    ensures |saved| == k / GroupSize
    ensures forall j :: 0 <= j < |saved| ==> saved[j] == CheckpointPath(BoardSize, (j + 1) * GroupSize)
  {
    if k == 0 then []
    else Checkpoints(k - 1) + (if k % GroupSize == 0 then [CheckpointPath(BoardSize, k)] else [])
  }

  /** No `_e` in `s` starts before position `i`. */
  predicate NoSeparatorBefore(s: string, i: nat)
  {
    forall j :: 0 <= j < i ==> !OccursAt(s, "_e", j)
  }

  /** The fixed start of a checkpoint path holds no `_e`, and the board number after it cannot start one. */
  lemma CheckpointPrefix(b: nat, rest: string)
    ensures var s := "models/6x6/knight_tour_dqn_b" + NatToString(b) + rest;
      NoSeparatorBefore(s, 28 + |NatToString(b)|)
  {
    var pre := "models/6x6/knight_tour_dqn_b";
    var bs := NatToString(b);
    var s := pre + bs + rest;
    forall j | 0 <= j < |pre| + |bs| ensures !OccursAt(s, "_e", j) {
      SeparatorChars(s, j);
      if j < |pre| - 1 {
        PathStartChars(j);
        assert s[j] == pre[j] && s[j + 1] == pre[j + 1];
      } else if j == |pre| - 1 {
        assert s[j] == 'b';
      } else {
        assert s[j] == bs[j - |pre|];
      }
    }
  }

  /** No `_` of the fixed start of a checkpoint path is followed by an `e`. */
  lemma PathStartChars(j: nat)
    requires j < 27
    ensures "models/6x6/knight_tour_dqn_b"[j] != '_' || "models/6x6/knight_tour_dqn_b"[j + 1] != 'e'
  {
  }

  /** An `_e` at `j` is an `_` at `j` followed by an `e`. */
  lemma SeparatorChars(s: string, j: nat)
    ensures OccursAt(s, "_e", j) <==> j + 1 < |s| && s[j] == '_' && s[j + 1] == 'e'
  {
    if j + 1 < |s| {
      assert s[j..j + 2] == [s[j], s[j + 1]];
    }
  }

  /** The first `_e` is at `i` when one is there and none starts before it. */
  lemma FirstSeparatorAt(s: string, i: nat)
    requires OccursAt(s, "_e", i) && NoSeparatorBefore(s, i)
    ensures IndexOf(s, "_e") == Some(i)
  {
    var r := IndexOf(s, "_e");
  }

  /** A string with no `_e` at or after `i`, and none before it, has none at all. */
  lemma NoSeparator(s: string, i: nat)
    requires NoSeparatorBefore(s, i)
    requires forall j :: i <= j < |s| - 1 ==> s[j] != '_' || s[j + 1] != 'e'
    ensures IndexOf(s, "_e").None?
  {
    forall j: nat ensures !OccursAt(s, "_e", j) {
      SeparatorChars(s, j);
    }
  }

  /** After the separator: a numeral and `.h5` hold no further `_e`, and the numeral is read back. */
  lemma EpisodeField(k: nat)
    ensures ParseNat(FirstField(FirstField(NatToString(k) + ".h5", "_e"), ".")) == Some(k)
  {
    var ks := NatToString(k);
    var tail := ks + ".h5";
    forall j | 0 <= j < |tail| ensures tail[j] != '_' {
      if j >= |ks| {
        assert tail[j] == ".h5"[j - |ks|];
      }
    }
    NoSeparator(tail, 0);
    assert FirstField(tail, "_e") == ks + "." + "h5";
    FirstFieldOfDigits(ks, ".", "h5");
    ParseNatToString(k);
  }

  /**
   * The last-resort search reads a checkpoint's episode count back from
   * its name: the key of `..._b{b}_e{k}.h5` is k.
   */
  lemma CheckpointKey(b: nat, k: nat)
    ensures EpisodeKey(CheckpointPath(b, k)) == Some(k)
  {
    var bs, tail := NatToString(b), NatToString(k) + ".h5";
    var s := CheckpointPath(b, k);
    var i := 28 + |bs|;
    assert s == "models/6x6/knight_tour_dqn_b" + bs + ("_e" + tail);
    CheckpointPrefix(b, "_e" + tail);
    assert s[i..i + 2] == "_e";
    FirstSeparatorAt(s, i);
    assert s[i + 2..] == tail;
    EpisodeField(k);
  }

  /** The final model's name has no `_e`, so the last-resort search gives it the key 0. */
  lemma FinalKey(b: nat)
    ensures EpisodeKey(FinalPath(b)) == Some(0)
  {
    var bs := NatToString(b);
    var s := FinalPath(b);
    var suffix := "_final.h5";
    CheckpointPrefix(b, suffix);
    assert s == "models/6x6/knight_tour_dqn_b" + bs + suffix;
    forall j | 29 + |bs| <= j < |s| ensures s[j] != 'e' {
      assert s[j] == suffix[j - 28 - |bs|];
    }
    NoSeparator(s, 28 + |bs|);
  }

  /** Every listed file matching the pattern, the glob returns the whole listing in order. */
  lemma {:induction false} GlobKeepsAll(fs: FileSystem, dir: string)
    requires forall i :: 0 <= i < |fs.files| ==> MatchesH5(dir, fs.files[i])
    ensures Glob(fs, dir) == fs.files
    decreases |fs.files|
  {
    if fs.files != [] {
      var init := FileSystem(fs.files[..|fs.files| - 1]);
      var last := fs.files[|fs.files| - 1];
      assert fs.files == init.files + [last];
      GlobKeepsAll(init, dir);
    }
  }

  /** A name saved by the training script is a `*.h5` file of the 6x6 models directory. */
  lemma SavedNameMatches(b: nat, middle: string)
    requires forall j :: 0 <= j < |middle| ==> middle[j] != '/'
    ensures MatchesH5("models/6x6", "models/6x6/knight_tour_dqn_b" + NatToString(b) + middle + ".h5")
  {
    var bs := NatToString(b);
    var name := "knight_tour_dqn_b" + bs + middle + ".h5";
    assert "models/6x6/knight_tour_dqn_b" + bs + middle + ".h5" == "models/6x6/" + name;
    forall j | 0 <= j < |name| ensures name[j] != '/' {
      if j < 17 {
        assert name[j] == "knight_tour_dqn_b"[j];
      } else if j < 17 + |bs| {
        assert name[j] == bs[j - 17];
      } else if j < 17 + |bs| + |middle| {
        assert name[j] == middle[j - 17 - |bs|];
      } else {
        assert name[j] == ".h5"[j - 17 - |bs| - |middle|];
      }
    }
    assert name[|name| - 3..] == ".h5";
  }

  /** Every path a training run saves is a `*.h5` file of the 6x6 models directory. */
  lemma SavedPathsMatch(k: nat)
    ensures var files := Checkpoints(k) + [FinalPath(BoardSize)];
      forall i :: 0 <= i < |files| ==> MatchesH5("models/6x6", files[i])
  {
    var files := Checkpoints(k) + [FinalPath(BoardSize)];
    forall i | 0 <= i < |files| ensures MatchesH5("models/6x6", files[i]) {
      if i < |Checkpoints(k)| {
        var ks := NatToString((i + 1) * GroupSize);
        assert files[i] == "models/6x6/knight_tour_dqn_b" + NatToString(BoardSize) + ("_e" + ks) + ".h5";
        SavedNameMatches(BoardSize, "_e" + ks);
      } else {
        assert files[i] == "models/6x6/knight_tour_dqn_b" + NatToString(BoardSize) + "_final" + ".h5";
        SavedNameMatches(BoardSize, "_final");
      }
    }
  }

  /** The episode keys of the saved paths: the checkpoints' episode counts in order, then 0 for the final model. */
  lemma SavedKeys(k: nat)
    ensures var files := Checkpoints(k) + [FinalPath(BoardSize)];
      && AllKeyed(files)
      && forall i :: 0 <= i < |files| ==> EpisodeKey(files[i]).value == if i < k / GroupSize then (i + 1) * GroupSize else 0
  {
    var files := Checkpoints(k) + [FinalPath(BoardSize)];
    forall i | 0 <= i < |files| ensures EpisodeKey(files[i]) == Some(if i < k / GroupSize then (i + 1) * GroupSize else 0) {
      if i < k / GroupSize {
        CheckpointKey(BoardSize, (i + 1) * GroupSize);
      } else {
        FinalKey(BoardSize);
      }
    }
  }

  /** Keys rising by a hundred and then a 0: the last-resort sort puts the highest, last checkpoint first. */
  lemma HighestCheckpoint(keys: seq<nat>, m: nat)
    requires m >= 1 && |keys| == m + 1 && keys[m] == 0
    requires forall i :: 0 <= i < m ==> keys[i] == (i + 1) * GroupSize
    ensures FirstHighest(keys) == m - 1
  {
    var r := FirstHighest(keys);
    assert keys[m - 1] <= keys[r];
  }

  /** The glob of the 6x6 directory lists every saved path, in order. */
  lemma SavedGlob(k: nat)
    ensures Glob(FileSystem(Checkpoints(k) + [FinalPath(BoardSize)]), "models/6x6") == Checkpoints(k) + [FinalPath(BoardSize)]
  {
    SavedPathsMatch(k);
    GlobKeepsAll(FileSystem(Checkpoints(k) + [FinalPath(BoardSize)]), "models/6x6");
  }

  /** Among the saved paths, the last-resort sort ranks the last checkpoint first. */
  lemma SavedHighest(k: nat)
    requires k >= GroupSize
    ensures var files := Checkpoints(k) + [FinalPath(BoardSize)];
      AllKeyed(files) && FirstHighest(EpisodeKeys(files)) == k / GroupSize - 1
  {
    SavedKeys(k);
    HighestCheckpoint(EpisodeKeys(Checkpoints(k) + [FinalPath(BoardSize)]), k / GroupSize);
  }

  /**
   * When the models directory holds exactly what a training run of at
   * least a hundred episodes saved, and there is no fallback list for 6x6,
   * the fallback search finds the last checkpoint through its last-resort
   * step: the final model's name has no episode number and ranks below
   * every checkpoint. The lookup itself gives nothing for 6x6, whose table
   * entry names no file; this is what the fallback search would find.
   */
  lemma LatestCheckpointFound(config: ModelConfig, k: nat)
    requires config.modelsBaseDir == "models" && SizeKey(BoardSize) !in config.fallbackModels
    requires k >= GroupSize
    ensures config.Fallback(BoardSize, FileSystem(Checkpoints(k) + [FinalPath(BoardSize)]))
         == Some(CheckpointPath(BoardSize, k / GroupSize * GroupSize))
  {
    assert SizeKey(BoardSize) == "6x6";
    assert config.SizeDir(BoardSize) == "models/6x6";
    LastResortOfSaved(k);
  }

  /** The last-resort search over what a training run saved picks the last checkpoint. */
  lemma LastResortOfSaved(k: nat)
    requires k >= GroupSize
    ensures LastResort(FileSystem(Checkpoints(k) + [FinalPath(BoardSize)]), "models/6x6")
         == Some(CheckpointPath(BoardSize, k / GroupSize * GroupSize))
  {
    var files := Checkpoints(k) + [FinalPath(BoardSize)];
    var m := k / GroupSize;
    SavedGlob(k);
    SavedHighest(k);
    assert files[m - 1] == CheckpointPath(BoardSize, m * GroupSize);
  }

  /** Row `e` of the log describes episode `e`. */
  predicate LogRows(log: seq<EpisodeRecord>)
  {
    forall e :: 0 <= e < |log| ==> LoggedEpisode(log[e], e)
  }

  /**
   * The bookkeeping after an episode: the row is appended to the log and
   * to `last_100`, which then drops its oldest entry if it holds more than
   * a hundred; when the episode closes a group of a hundred, the group is
   * summarised and a checkpoint is saved under the number of episodes run.
   */
  method RecordEpisode(row: EpisodeRecord, log: seq<EpisodeRecord>, last100: seq<EpisodeRecord>,
                       summaries: seq<GroupSummary>, saved: seq<string>)
    returns (log': seq<EpisodeRecord>, last100': seq<EpisodeRecord>, summaries': seq<GroupSummary>, saved': seq<string>)
    requires LogRows(log) && LoggedEpisode(row, |log|)
    requires last100 == Window(log, GroupSize) && SummarizesGroups(summaries, log) && saved == Checkpoints(|log|)
    ensures log' == log + [row] && LogRows(log')
    ensures last100' == Window(log', GroupSize) && |last100'| <= GroupSize
    ensures SummarizesGroups(summaries', log') && saved' == Checkpoints(|log'|)
  {
    var e := |log|;
    assert Checkpoints(e + 1) == saved + if (e + 1) % GroupSize == 0 then [CheckpointPath(BoardSize, e + 1)] else [];
    SummariesGrow(summaries, log, row);
    WindowOfWindow(log, row, GroupSize);
    log' := log + [row];
    last100' := Push(last100, row, GroupSize);
    summaries', saved' := summaries, saved;
    if (e + 1) % GroupSize == 0 {
      summaries' := summaries + [Summarize(last100')];
      saved' := saved + [CheckpointPath(BoardSize, e + 1)];
    }
  }

  /**
   * The training run: a fresh environment on the 6x6 board and a fresh
   * agent with epsilon decay 0.995, ten thousand episodes, then the final
   * save. It returns the log rows, the group summaries printed every
   * hundred episodes and the paths saved, in order. Each summary is that of
   * the hundred episodes it closes; between two rows, epsilon is restarted
   * and decayed as the replay and the restart rule say.
   */
  method Train(predict: (Weights, State) -> seq<real>, fit: (Weights, seq<State>, seq<seq<real>>) -> Weights, initial: Weights)
    returns (log: seq<EpisodeRecord>, summaries: seq<GroupSummary>, saved: seq<string>)
    requires forall w, s :: |predict(w, s)| == MoveCount
    ensures |log| == Episodes && LogRows(log)
    ensures log[0].epsilon == 1.0
    ensures EpsilonsFollow(log, 0.01, 0.995)
    ensures SummarizesGroups(summaries, log)
    ensures saved == Checkpoints(Episodes) + [FinalPath(BoardSize)]
  {
    var env := new KnightTourEnv(BoardSize);
    var agent := new DQNAgent<State>(MoveCount, predict, fit, initial, 0.001, 0.99, 1.0, 0.995, 0.01);
    var last100: seq<EpisodeRecord> := [];
    log, summaries, saved := [], [], [];
    for e := 0 to Episodes
      invariant env.boardSize == BoardSize && env.totalSquares == BoardSize * BoardSize
      invariant agent.Valid() && agent.actionSize == MoveCount && agent.epsilonMin == 0.01 && agent.epsilonDecay == 0.995
      invariant |log| == e && LogRows(log)
      invariant e == 0 ==> agent.epsilon == 1.0
      invariant e > 0 ==> log[0].epsilon == 1.0
      invariant |agent.remembered| == Scored(log)
      invariant e > 0 ==> agent.epsilon == RestartedEpsilon(log[e - 1].epsilon, e - 1, log[e - 1].win)
      invariant EpsilonsFollow(log, 0.01, 0.995)
      invariant last100 == Window(log, GroupSize)
      invariant SummarizesGroups(summaries, log)
      invariant saved == Checkpoints(e)
    {
      var row := TrainEpisode(env, agent, e);
      assert (log + [row])[..|log|] == log;
      assert |agent.memory| >= BatchSize <==> |agent.remembered| >= BatchSize;
      EpsilonsGrow(log, row, 0.01, 0.995);
      log, last100, summaries, saved := RecordEpisode(row, log, last100, summaries, saved);
      if (e + 1) % RestartPeriod == 0 && row.win == 0 {
        agent.epsilon := if agent.epsilon >= RestartFloor then agent.epsilon else RestartFloor;
      }
    }
    saved := saved + [FinalPath(BoardSize)];
  }
}
